/** The hypothesis on the JSON library can be met: some codec gives every model back. */
module CodecExists {
  import opened Bytes
  import opened Payloads

  function Nat(n: nat): Bytes {
    if n == 0 then [0] else [1] + Nat(n - 1)
  }

  function Int(n: int): Bytes {
    if n >= 0 then [0] + Nat(n) else [1] + Nat(-n)
  }

  function Text(s: string): Bytes {
    if s == [] then [0] else [1] + Nat(s[0] as int) + Text(s[1..])
  }

  function Texts(ss: seq<string>): Bytes {
    if ss == [] then [0] else [1] + Text(ss[0]) + Texts(ss[1..])
  }

  function NodeList(ns: seq<Node>): Bytes {
    if ns == [] then [0] else [1] + (Text(ns[0].ip) + Int(ns[0].id)) + NodeList(ns[1..])
  }

  function Encode(p: Payload): Bytes {
    match p
    case InitSendFile(name, size) => Text(name) + Nat(size)
    case InitReceiveFile(name) => Text(name)
    case DeleteFile(name) => Text(name)
    case InitBackupData(user) => Text(user)
    case ConnectedIps(ips) => Texts(ips)
    case ConnectedNodes(nodes) => NodeList(nodes)
    case ServerId(id) => Int(id)
  }

  lemma DropHead(h: Bytes, a: Bytes, x: Bytes, b: Bytes, y: Bytes)
    requires (h + a) + x == (h + b) + y
    ensures a + x == b + y
  {
    assert (h + a) + x == h + (a + x) && (h + b) + y == h + (b + y);
    assert (h + (a + x))[|h|..] == a + x && (h + (b + y))[|h|..] == b + y;
  }

  lemma {:induction false} NatPrefix(m: nat, x: Bytes, n: nat, y: Bytes)
    requires Nat(m) + x == Nat(n) + y
    ensures m == n && x == y
  {
    assert (Nat(m) + x)[0] == (Nat(n) + y)[0];
    if m == 0 {
      assert (Nat(m) + x)[1..] == x && (Nat(n) + y)[1..] == y;
    } else {
      DropHead([1], Nat(m - 1), x, Nat(n - 1), y);
      NatPrefix(m - 1, x, n - 1, y);
    }
  }

  lemma IntPrefix(m: int, x: Bytes, n: int, y: Bytes)
    requires Int(m) + x == Int(n) + y
    ensures m == n && x == y
  {
    assert (Int(m) + x)[0] == (Int(n) + y)[0];
    var h: Bytes := if m >= 0 then [0] else [1];
    var a, b := if m >= 0 then m else -m, if n >= 0 then n else -n;
    DropHead(h, Nat(a), x, Nat(b), y);
    NatPrefix(a, x, b, y);
  }

  lemma TextCons(s: string)
    requires s != []
    ensures Text(s) == [1] + (Nat(s[0] as int) + Text(s[1..]))
  {
    hide Nat;
  }

  lemma {:induction false} TextPrefix(s: string, x: Bytes, t: string, y: Bytes)
    requires Text(s) + x == Text(t) + y
    ensures s == t && x == y
  {
    assert (Text(s) + x)[0] == (Text(t) + y)[0];
    if s == [] {
      assert (Text(s) + x)[1..] == x && (Text(t) + y)[1..] == y;
    } else {
      hide Nat, Text;
      var a, b := Nat(s[0] as int), Nat(t[0] as int);
      TextCons(s);
      TextCons(t);
      DropHead([1], a + Text(s[1..]), x, b + Text(t[1..]), y);
      assert (a + Text(s[1..])) + x == a + (Text(s[1..]) + x) && (b + Text(t[1..])) + y == b + (Text(t[1..]) + y);
      NatPrefix(s[0] as int, Text(s[1..]) + x, t[0] as int, Text(t[1..]) + y);
      TextPrefix(s[1..], x, t[1..], y);
      assert s == [s[0]] + s[1..] && t == [t[0]] + t[1..];
    }
  }

  lemma TextsCons(s: seq<string>)
    requires s != []
    ensures Texts(s) == [1] + (Text(s[0]) + Texts(s[1..]))
  {
    hide Text;
  }

  lemma {:induction false} TextsPrefix(s: seq<string>, t: seq<string>)
    requires Texts(s) == Texts(t)
    ensures s == t
  {
    assert Texts(s)[0] == Texts(t)[0];
    if s != [] {
      hide Text, Texts;
      TextsCons(s);
      TextsCons(t);
      DropHead([1], Text(s[0]), Texts(s[1..]), Text(t[0]), Texts(t[1..]));
      TextPrefix(s[0], Texts(s[1..]), t[0], Texts(t[1..]));
      TextsPrefix(s[1..], t[1..]);
      assert s == [s[0]] + s[1..] && t == [t[0]] + t[1..];
    }
  }

  lemma NodeListCons(s: seq<Node>)
    requires s != []
    ensures NodeList(s) == ([1] + Text(s[0].ip)) + (Int(s[0].id) + NodeList(s[1..]))
  {
    hide Text, Int;
  }

  lemma {:induction false} NodeListPrefix(s: seq<Node>, t: seq<Node>)
    requires NodeList(s) == NodeList(t)
    ensures s == t
  {
    assert NodeList(s)[0] == NodeList(t)[0];
    if s != [] {
      hide Text, Int;
      var a, b := Int(s[0].id) + NodeList(s[1..]), Int(t[0].id) + NodeList(t[1..]);
      NodeListCons(s);
      NodeListCons(t);
      DropHead([1], Text(s[0].ip), a, Text(t[0].ip), b);
      TextPrefix(s[0].ip, a, t[0].ip, b);
      IntPrefix(s[0].id, NodeList(s[1..]), t[0].id, NodeList(t[1..]));
      NodeListPrefix(s[1..], t[1..]);
      assert s == [s[0]] + s[1..] && t == [t[0]] + t[1..];
    }
  }

  lemma EncodeInjective(p: Payload, q: Payload)
    requires TypeOf(p) == TypeOf(q) && Encode(p) == Encode(q)
    ensures p == q
  {
    assert Encode(p) + [] == Encode(p) && Encode(q) + [] == Encode(q);
    match p {
      case InitSendFile(name, size) =>
        TextPrefix(name, Nat(size), q.filename, Nat(q.fileSize));
        assert Nat(size) + [] == Nat(q.fileSize) + [];
        NatPrefix(size, [], q.fileSize, []);
      case InitReceiveFile(name) => TextPrefix(name, [], q.filename, []);
      case DeleteFile(name) => TextPrefix(name, [], q.filename, []);
      case InitBackupData(user) => TextPrefix(user, [], q.username, []);
      case ConnectedIps(ips) => TextsPrefix(ips, q.ips);
      case ConnectedNodes(nodes) => NodeListPrefix(nodes, q.nodes);
      case ServerId(id) => IntPrefix(id, [], q.serverId, []);
    }
  }

  ghost function Decode(t: byte, b: Bytes): Option<Payload> {
    if exists p :: TypeOf(p) == t && Encode(p) == b then
      var p :| TypeOf(p) == t && Encode(p) == b; Some(p)
    else None
  }

  /** So nothing that is proved from a faithful codec is proved about no codec at all. */
  lemma FaithfulCodecExists() returns (c: Codec)
    ensures Faithful(c)
  {
    c := Codec(p => Encode(p), (t: byte, b: Bytes) => Decode(t, b));
    forall p: Payload | Representable(p)
      ensures c.decode(TypeOf(p), c.encode(p)) == Some(p)
    {
      var q := Decode(TypeOf(p), Encode(p)).value;
      EncodeInjective(p, q);
    }
  }
}
