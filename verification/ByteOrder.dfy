/** Byte strings in lexicographic order, as Go and JavaScript compare them. */
module ByteOrder {
  import opened StableSort

  type Bytes = seq<nat>

  predicate Leq(a: Bytes, b: Bytes) {
    a == [] || (b != [] && (a[0] < b[0] || (a[0] == b[0] && Leq(a[1..], b[1..]))))
  }

  function Lexicographic(): (Bytes, Bytes) -> bool {
    (a, b) => Leq(a, b)
  }

  lemma {:induction false} LeqTotal(a: Bytes, b: Bytes)
    ensures Leq(a, b) || Leq(b, a)
    ensures Leq(a, b) && Leq(b, a) ==> a == b
  {
    if a != [] && b != [] {
      LeqTotal(a[1..], b[1..]);
      assert a == [a[0]] + a[1..] && b == [b[0]] + b[1..];
    }
  }

  lemma {:induction false} LeqTransitive(a: Bytes, b: Bytes, c: Bytes)
    requires Leq(a, b) && Leq(b, c)
    ensures Leq(a, c)
  {
    if a != [] && b != [] && c != [] && a[0] == b[0] == c[0] {
      LeqTransitive(a[1..], b[1..], c[1..]);
    }
  }

  lemma LexicographicTotal()
    ensures TotalPreorder(Lexicographic())
    ensures forall s :: NoTies(Lexicographic(), s)
    ensures forall a, b: Bytes :: Lexicographic()(a, b) && Lexicographic()(b, a) ==> a == b
  {
    forall a, b: Bytes ensures Leq(a, b) || Leq(b, a)
      ensures Leq(a, b) && Leq(b, a) ==> a == b
    {
      LeqTotal(a, b);
    }
    forall a, b, c: Bytes | Leq(a, b) && Leq(b, c) ensures Leq(a, c) {
      LeqTransitive(a, b, c);
    }
  }

  // ----- hexadecimal -----

  ghost predicate AreBytes(s: Bytes) {
    forall i :: 0 <= i < |s| ==> s[i] < 256
  }

  /** '0'..'9', then 'a'..'f'. */
  function Digit(d: nat): nat {
    if d < 10 then 48 + d else 87 + d
  }

  function Hex(s: Bytes): Bytes {
    if s == [] then [] else [Digit(s[0] / 16), Digit(s[0] % 16)] + Hex(s[1..])
  }

  /** Comparing hexadecimal texts is comparing the bytes. */
  lemma {:induction false} HexOrder(a: Bytes, b: Bytes)
    requires AreBytes(a) && AreBytes(b)
    ensures Leq(Hex(a), Hex(b)) <==> Leq(a, b)
  {
    if a != [] && b != [] {
      var x, y := Hex(a), Hex(b);
      assert x[1..][1..] == Hex(a[1..]) && y[1..][1..] == Hex(b[1..]);
      assert x[1..][0] == Digit(a[0] % 16) && y[1..][0] == Digit(b[0] % 16);
      HexOrder(a[1..], b[1..]);
      assert a[0] == 16 * (a[0] / 16) + a[0] % 16 && b[0] == 16 * (b[0] / 16) + b[0] % 16;
    }
  }
}
