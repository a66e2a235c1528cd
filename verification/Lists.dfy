/** Duplicate-free lists and JavaScript's insertion-ordered Map. */
module Lists {

  ghost predicate NoDup<T>(s: seq<T>) {
    forall i, j :: 0 <= i < j < |s| ==> s[i] != s[j]
  }

  /** `list.filter((item) => item !== x)`. */
  function Without<T(==)>(s: seq<T>, x: T): (r: seq<T>)
  {
    if s == [] then []
    else if s[0] == x then Without(s[1..], x)
    else [s[0]] + Without(s[1..], x)
  }

  lemma {:induction false} WithoutFacts<T>(s: seq<T>, x: T)
    ensures forall y :: y in Without(s, x) <==> y in s && y != x
    ensures NoDup(s) ==> NoDup(Without(s, x))
    ensures x !in s ==> Without(s, x) == s
  {
    if s != [] {
      WithoutFacts(s[1..], x);
      var rest := Without(s[1..], x);
      if NoDup(s) && s[0] != x {
        forall k | 0 <= k < |rest| ensures rest[k] != s[0] {
          assert rest[k] in rest;
        }
      }
    }
  }

  lemma NoDupHead<T>(s: seq<T>)
    requires NoDup(s) && s != []
    ensures NoDup(s[1..]) && s[0] !in s[1..]
    ensures forall x :: x in s <==> x == s[0] || x in s[1..]
  {
    assert s == [s[0]] + s[1..];
  }

  /** Keys in insertion order beside the table itself. Setting a present key keeps its place;
      deleting and setting again moves it to the end. */
  datatype JsMap<V> = JsMap(order: seq<string>, table: map<string, V>) {

    ghost predicate Valid() {
      && NoDup(order)
      && (forall k :: k in order <==> k in table)
    }

    predicate Has(k: string) {
      k in table
    }

    function Set(k: string, v: V): JsMap<V> {
      JsMap(if k in table then order else order + [k], table[k := v])
    }

    function Delete(k: string): JsMap<V> {
      JsMap(Without(order, k), table - {k})
    }

    lemma SetValid(k: string, v: V)
      requires Valid()
      ensures Set(k, v).Valid()
    {
    }

    lemma DeleteValid(k: string)
      requires Valid()
      ensures Delete(k).Valid()
    {
      WithoutFacts(order, k);
    }
  }

  function EmptyMap<V>(): JsMap<V> {
    JsMap([], map[])
  }
}
