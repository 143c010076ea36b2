/** Member prefixes as address blocks (CIDR, section 3.1 of RFC 4632) and as the text the
    members table is keyed by. */
module Cidr {
  import opened Model

  // ---- blocks of addresses ----

  datatype Address = Addr4(a: Byte, b: Byte, c: Byte, d: Byte) | Addr6(text: string)

  /** The address agrees with the prefix on all of the prefix's leading bits. */
  predicate Contains(p: Prefix, x: Address) {
    match p
    case V4Host(a, b, c, d) => x == Addr4(a, b, c, d)
    case V4Net(a, b, c) => x.Addr4? && x.a == a && x.b == b && x.c == c
    case V6Host(text) => x == Addr6(text)
  }

  /** Same family and equal on the shorter of the two lengths. */
  predicate Overlaps(p: Prefix, q: Prefix) {
    if p.V6Host? || q.V6Host? then p == q
    else if p.V4Host? && q.V4Host? then p == q
    else p.a == q.a && p.b == q.b && p.c == q.c
  }

  ghost predicate Within(p: Prefix, q: Prefix) {
    forall x :: Contains(p, x) ==> Contains(q, x)
  }

  function Some1(p: Prefix): Address {
    match p
    case V4Host(a, b, c, d) => Addr4(a, b, c, d)
    case V4Net(a, b, c) => Addr4(a, b, c, 0)
    case V6Host(text) => Addr6(text)
  }

  /** Overlapping blocks share an address, and sharing one means one lies within the other:
      blocks nest or are disjoint. */
  lemma OverlapsMeans(p: Prefix, q: Prefix)
    ensures Overlaps(p, q) <==> exists x :: Contains(p, x) && Contains(q, x)
    ensures Overlaps(p, q) <==> Within(p, q) || Within(q, p)
  {
    assert Contains(p, Some1(p)) && Contains(q, Some1(q));
    if Overlaps(p, q) {
      if p.V4Host? {
        assert Contains(q, Some1(p));
      } else {
        assert Contains(p, Some1(q));
      }
    }
  }

  function NetOf(p: Prefix): Prefix
    requires p.V4Host?
  {
    V4Net(p.a, p.b, p.c)
  }

  // ---- text ----

  function Digit(n: nat): char
    requires n < 10
  {
    ('0' as int + n) as char
  }

  function Dec(n: Byte): string {
    if n < 10 then [Digit(n)]
    else if n < 100 then [Digit(n / 10), Digit(n % 10)]
    else [Digit(n / 100), Digit(n / 10 % 10), Digit(n % 10)]
  }

  /** The "a.b.c." that every address of a /24 starts with. */
  function Key24(a: Byte, b: Byte, c: Byte): string {
    Dec(a) + "." + (Dec(b) + "." + (Dec(c) + "."))
  }

  function Text(p: Prefix): string {
    match p
    case V4Host(a, b, c, d) => Key24(a, b, c) + (Dec(d) + "/32")
    case V4Net(a, b, c) => Key24(a, b, c) + "0/24"
    case V6Host(text) => text + "/128"
  }

  /** What the texts look like. */
  lemma TextExamples()
    ensures Text(V4Host(10, 1, 23, 4)) == "10.1.23.4/32" && Text(V4Net(192, 0, 200)) == "192.0.200.0/24"
    ensures Text(V6Host("2001:db8::1")) == "2001:db8::1/128" && Key24(10, 1, 2) == "10.1.2."
  {
    DecExamples();
    assert Key24(10, 1, 2) == "10.1.2." && Key24(10, 1, 23) == "10.1.23." && Key24(192, 0, 200) == "192.0.200.";
  }

  lemma DecExamples()
    ensures Dec(10) == "10" && Dec(1) == "1" && Dec(23) == "23" && Dec(4) == "4" && Dec(2) == "2"
    ensures Dec(192) == "192" && Dec(0) == "0" && Dec(200) == "200"
  {
  }

  /** The text of an IPv6 address has a colon before any dot. */
  predicate V6Text(s: string) {
    exists i | 0 <= i < |s| && s[i] == ':' :: forall j | 0 <= j < i :: s[j] != '.'
  }

  predicate Canonical(p: Prefix) {
    p.V6Host? ==> V6Text(p.text)
  }

  /** IPv4 is always canonical; in IPv6 a dotted tail is, a dotted quad alone is not. */
  lemma CanonicalExamples(p: Prefix)
    ensures p.V4Host? || p.V4Net? ==> Canonical(p)
    ensures Canonical(V6Host("::ffff:10.1.2.3")) && !Canonical(V6Host("10.1.2.3"))
  {
    assert "::ffff:10.1.2.3"[0] == ':';
  }

  predicate NoDot(s: string) {
    forall i | 0 <= i < |s| :: s[i] != '.' && s[i] != ':'
  }

  lemma DecNoDot(n: Byte)
    ensures NoDot(Dec(n))
  {
  }

  lemma DecInjective(m: Byte, n: Byte)
    requires Dec(m) == Dec(n)
    ensures m == n
  {
    assert |Dec(m)| == |Dec(n)|;
    assert forall i | 0 <= i < |Dec(m)| :: Dec(m)[i] == Dec(n)[i];
    assert Dec(m)[0] == Dec(n)[0];
    if m >= 10 {
      assert Dec(m)[1] == Dec(n)[1];
      if m >= 100 {
        assert Dec(m)[2] == Dec(n)[2];
      }
    }
  }

  /** The first dot splits a text in one way. */
  lemma SplitUnique(x: string, s: string, y: string, t: string)
    requires NoDot(x) && NoDot(y) && x + "." + s == y + "." + t
    ensures x == y && s == t
  {
    var u, v := x + "." + s, y + "." + t;
    assert u[|x|] == '.' && v[|y|] == '.';
    assert x == u[..|x|] && y == v[..|y|];
    assert s == u[|x| + 1..] && t == v[|y| + 1..];
  }

  lemma OctetUnique(m: Byte, s: string, n: Byte, t: string)
    requires Dec(m) + "." + s == Dec(n) + "." + t
    ensures m == n && s == t
  {
    DecNoDot(m);
    DecNoDot(n);
    SplitUnique(Dec(m), s, Dec(n), t);
    DecInjective(m, n);
  }

  lemma Key24Rest(a: Byte, b: Byte, c: Byte, s: string)
    ensures Key24(a, b, c) + s == Dec(a) + "." + (Dec(b) + "." + (Dec(c) + "." + s))
  {
    assert Dec(c) + "." + s == (Dec(c) + ".") + s;
    assert Dec(b) + "." + (Dec(c) + "." + s) == (Dec(b) + "." + (Dec(c) + ".")) + s;
  }

  /** A key is a prefix of another dotted text only if the octets are the same:
      "10.1.2." does not match 10.1.23.4. */
  lemma KeyUnique(a: Byte, b: Byte, c: Byte, s: string, a': Byte, b': Byte, c': Byte, t: string)
    requires Key24(a, b, c) + s == Key24(a', b', c') + t
    ensures a == a' && b == b' && c == c' && s == t
  {
    Key24Rest(a, b, c, s);
    Key24Rest(a', b', c', t);
    OctetUnique(a, Dec(b) + "." + (Dec(c) + "." + s), a', Dec(b') + "." + (Dec(c') + "." + t));
    OctetUnique(b, Dec(c) + "." + s, b', Dec(c') + "." + t);
    OctetUnique(c, s, c', t);
  }

  lemma V6Apart(text: string, a: Byte, b: Byte, c: Byte, s: string)
    requires V6Text(text)
    ensures text + "/128" != Key24(a, b, c) + s
  {
    Key24Rest(a, b, c, s);
    DecNoDot(a);
    var u, v := text + "/128", Key24(a, b, c) + s;
    var i :| 0 <= i < |text| && text[i] == ':' && forall j | 0 <= j < i :: text[j] != '.';
    var n := |Dec(a)|;
    assert v[n] == '.';
    assert u[i] == ':';
    assert i < n ==> v[i] == Dec(a)[i];
    assert n < i ==> u[n] == text[n];
  }

  predicate StartsWith(s: string, key: string) {
    |key| <= |s| && s[..|key|] == key
  }

  /** The LIKE scan of a /24 finds exactly the stored prefixes inside it. */
  lemma LikeExact(p: Prefix, a: Byte, b: Byte, c: Byte)
    requires Canonical(p)
    ensures StartsWith(Text(p), Key24(a, b, c)) <==> !p.V6Host? && p.a == a && p.b == b && p.c == c
  {
    var key := Key24(a, b, c);
    match p {
      case V4Host(a', b', c', d) => LikeV4(a', b', c', Dec(d) + "/32", a, b, c);
      case V4Net(a', b', c') => LikeV4(a', b', c', "0/24", a, b, c);
      case V6Host(text) =>
        if StartsWith(Text(p), key) {
          assert Text(p) == key + Text(p)[|key|..];
          V6Apart(text, a, b, c, Text(p)[|key|..]);
        }
    }
  }

  lemma LikeV4(a': Byte, b': Byte, c': Byte, rest: string, a: Byte, b: Byte, c: Byte)
    ensures StartsWith(Key24(a', b', c') + rest, Key24(a, b, c)) <==> a' == a && b' == b && c' == c
  {
    var text, key := Key24(a', b', c') + rest, Key24(a, b, c);
    if StartsWith(text, key) {
      assert text == key + text[|key|..];
      KeyUnique(a', b', c', rest, a, b, c, text[|key|..]);
    }
  }

  /** Different prefixes have different texts, so the text is a key for the prefix. */
  lemma TextInjective(p: Prefix, q: Prefix)
    requires Canonical(p) && Canonical(q) && Text(p) == Text(q)
    ensures p == q
  {
    if p.V6Host? && q.V6Host? {
      assert p.text == Text(p)[..|Text(p)| - 4] && q.text == Text(q)[..|Text(q)| - 4];
    } else if p.V6Host? {
      V6Apart(p.text, q.a, q.b, q.c, if q.V4Host? then Dec(q.d) + "/32" else "0/24");
    } else if q.V6Host? {
      V6Apart(q.text, p.a, p.b, p.c, if p.V4Host? then Dec(p.d) + "/32" else "0/24");
    } else {
      var s := if p.V4Host? then Dec(p.d) + "/32" else "0/24";
      var t := if q.V4Host? then Dec(q.d) + "/32" else "0/24";
      KeyUnique(p.a, p.b, p.c, s, q.a, q.b, q.c, t);
      LastDigit(p);
      LastDigit(q);
      if p.V4Host? && q.V4Host? {
        assert Dec(p.d) == s[..|s| - 3] && Dec(q.d) == t[..|t| - 3];
        DecInjective(p.d, q.d);
      }
    }
  }

  lemma LastDigit(p: Prefix)
    requires !p.V6Host?
    ensures |Text(p)| > 0 && Text(p)[|Text(p)| - 1] == if p.V4Host? then '2' else '4'
  {
  }
}
