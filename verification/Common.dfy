/** Stock definitions shared by the models. */
module Common {

  datatype Option<+T> = None | Some(value: T)

  newtype byte = x: int | 0 <= x < 256

  function Max(a: int, b: int): (r: int)
    ensures a <= r && b <= r && (r == a || r == b)
  {
    if a < b then b else a
  }

  function Min(a: int, b: int): (r: int)
    ensures r <= a && r <= b && (r == a || r == b)
  {
    if a < b then a else b
  }

  lemma Regroup<T>(x: seq<T>, y: seq<T>, z: seq<T>)
    ensures x + (y + z) == (x + y) + z
  {
  }

  lemma TakeOne<T>(s: seq<T>, i: nat)
    requires i < |s|
    ensures multiset(s) == multiset(s[..i] + s[i + 1..]) + multiset{s[i]}
  {
    assert s == s[..i] + [s[i]] + s[i + 1..];
  }

  lemma CancelOne<T>(a: multiset<T>, b: multiset<T>, x: T)
    requires a + multiset{x} == b + multiset{x}
    ensures a == b
  {
    assert a == a + multiset{x} - multiset{x};
  }

  /** Pairs the first element of `s` with an equal one of a permutation. */
  lemma TakeFirst<T>(s: seq<T>, s': seq<T>) returns (k: nat)
    requires s != [] && multiset(s) == multiset(s')
    ensures k < |s'| && s'[k] == s[0]
    ensures multiset(s[1..]) == multiset(s'[..k] + s'[k + 1..])
  {
    assert s[0] in multiset(s');
    k :| 0 <= k < |s'| && s'[k] == s[0];
    TakeOne(s', k);
    assert s == [s[0]] + s[1..];
    CancelOne(multiset(s[1..]), multiset(s'[..k] + s'[k + 1..]), s[0]);
  }
}
