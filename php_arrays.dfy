/**
 * The slice of PHP's value and array semantics that the client relies on:
 * scalar values as the client stores them, string conversion by the `.`
 * operator, ordered arrays with string or integer keys, and `array_merge`.
 */
module PhpArrays {

  datatype Option<+T> = None | Some(value: T)

  /** A scalar as the client stores it: null, a boolean (gethostname() may
      yield false) or a string. */
  datatype Value = Null | Bool(b: bool) | Str(s: string)

  /** The string PHP's `.` operator makes of a scalar. */
  function ToPhpString(v: Value): (s: string)
    ensures v.Str? ==> s == v.s
    ensures v == Null || v == Bool(false) ==> s == ""
    ensures v == Bool(true) ==> s == "1"
  {
    match v
    case Null => ""
    case Bool(b) => if b then "1" else ""
    case Str(s) => s
  }

  /** An array key: PHP arrays are keyed by strings or integers. */
  datatype Key = StrKey(name: string) | IntKey(index: int)

  type Entry = (Key, Value)

  /** A PHP array: an insertion-ordered list of key/value pairs. */
  type PhpArray = seq<Entry>

  /** The keys of an array, in order. */
  function Keys(a: PhpArray): (ks: seq<Key>)
    ensures |ks| == |a|
    ensures forall i :: 0 <= i < |a| ==> ks[i] == a[i].0
  {
    if a == [] then [] else [a[0].0] + Keys(a[1..])
  }

  ghost predicate Distinct(ks: seq<Key>) {
    forall i, j :: 0 <= i < j < |ks| ==> ks[i] != ks[j]
  }

  /** A real PHP array never holds the same key twice. */
  ghost predicate WellFormed(a: PhpArray) {
    Distinct(Keys(a))
  }

  /** Every key is a string key. */
  ghost predicate StringKeyed(a: PhpArray) {
    forall i :: 0 <= i < |a| ==> a[i].0.StrKey?
  }

  /** `$a[$k]`: the value stored under key k, if any. */
  function Lookup(a: PhpArray, k: Key): (r: Option<Value>)
    ensures r.Some? <==> k in Keys(a)
  {
    if a == [] then None
    else if a[0].0 == k then Some(a[0].1)
    else Lookup(a[1..], k)
  }

  /** `$a[$k] = $v`: an existing key keeps its position and takes the new
      value; a new key is appended at the end. */
  function Put(a: PhpArray, k: Key, v: Value): (r: PhpArray)
    ensures Keys(r) == if k in Keys(a) then Keys(a) else Keys(a) + [k]
    ensures Lookup(r, k) == Some(v)
    ensures forall k' :: k' != k ==> Lookup(r, k') == Lookup(a, k')
  {
    if a == [] then [(k, v)]
    else if a[0].0 == k then
      PutHere(a, k, v);
      [(k, v)] + a[1..]
    else
      var tail := Put(a[1..], k, v);
      PutFurther(a, k, v, tail);
      [a[0]] + tail
  }

  /** Overwriting the first entry keeps the keys and every other lookup. */
  lemma PutHere(a: PhpArray, k: Key, v: Value)
    requires a != [] && a[0].0 == k
    ensures Keys([(k, v)] + a[1..]) == Keys(a)
    ensures Lookup([(k, v)] + a[1..], k) == Some(v)
    ensures forall k' :: k' != k ==> Lookup([(k, v)] + a[1..], k') == Lookup(a, k')
  {
    var r := [(k, v)] + a[1..];
    assert r[1..] == a[1..];
    assert Keys(r) == [k] + Keys(a[1..]) == Keys(a);
  }

  /** Writing past the first entry keeps it in front of the written tail. */
  lemma PutFurther(a: PhpArray, k: Key, v: Value, tail: PhpArray)
    requires a != [] && a[0].0 != k
    requires Keys(tail) == if k in Keys(a[1..]) then Keys(a[1..]) else Keys(a[1..]) + [k]
    requires Lookup(tail, k) == Some(v)
    requires forall k' :: k' != k ==> Lookup(tail, k') == Lookup(a[1..], k')
    ensures Keys([a[0]] + tail) == if k in Keys(a) then Keys(a) else Keys(a) + [k]
    ensures Lookup([a[0]] + tail, k) == Some(v)
    ensures forall k' :: k' != k ==> Lookup([a[0]] + tail, k') == Lookup(a, k')
  {
    var r := [a[0]] + tail;
    assert r[1..] == tail;
    assert Keys(a) == [a[0].0] + Keys(a[1..]);
    assert Keys(r) == [a[0].0] + Keys(tail);
    if k !in Keys(a[1..]) {
      Associative([a[0].0], Keys(a[1..]), [k]);
    }
  }

  /** The number of integer keys of an array. */
  function CountIntKeys(a: PhpArray): nat {
    if a == [] then 0
    else (if a[0].0.IntKey? then 1 else 0) + CountIntKeys(a[1..])
  }

  /** The loop of `array_merge`: each entry of `rest` is merged into `acc`
      in turn; a string key is written with `Put`, an integer key is
      renumbered to `next` and appended. */
  function MergeInto(acc: PhpArray, rest: PhpArray, next: int): PhpArray
    decreases |rest|
  {
    if rest == [] then acc
    else if rest[0].0.StrKey? then MergeInto(Put(acc, rest[0].0, rest[0].1), rest[1..], next)
    else MergeInto(acc + [(IntKey(next), rest[0].1)], rest[1..], next + 1)
  }

  /** `array_merge($a, $b)`: integer keys of both arrays are renumbered from
      0 in order; a string key of b overwrites the same key in place, and a
      new string key is appended. */
  function ArrayMerge(a: PhpArray, b: PhpArray): (r: PhpArray)
    ensures WellFormed(r)
    ensures forall k :: k in Keys(r) && k.IntKey? ==> k.index < CountIntKeys(a) + CountIntKeys(b)
  {
    var first := MergeInto([], a, 0);
    MergeIntoWellFormed([], a, 0);
    MergeIntoWellFormed(first, b, CountIntKeys(a));
    MergeInto(first, b, CountIntKeys(a))
  }

  /** The keys of ks that are not in seen, in order. */
  function Fresh(ks: seq<Key>, seen: seq<Key>): (r: seq<Key>)
    ensures forall k :: k in r <==> k in ks && k !in seen
  {
    if ks == [] then []
    else (if ks[0] in seen then [] else [ks[0]]) + Fresh(ks[1..], seen)
  }

  // ---------------------------------------------------------------------
  // Lemmas about single writes

  lemma {:induction false} KeysAppend(a: PhpArray, e: Entry)
    ensures Keys(a + [e]) == Keys(a) + [e.0]
  {
  }

  lemma {:induction false} LookupAppend(a: PhpArray, e: Entry, k: Key)
    ensures Lookup(a + [e], k) ==
      if k in Keys(a) then Lookup(a, k) else if e.0 == k then Some(e.1) else None
  {
    if a != [] {
      assert (a + [e])[1..] == a[1..] + [e];
      assert Keys(a) == [a[0].0] + Keys(a[1..]);
      LookupAppend(a[1..], e, k);
    }
  }

  lemma PutPast(a: PhpArray, k: Key, v: Value)
    requires a != [] && a[0].0 != k
    ensures Put(a, k, v) == [a[0]] + Put(a[1..], k, v)
  {
  }

  lemma {:induction false} PutAbsent(a: PhpArray, k: Key, v: Value)
    requires k !in Keys(a)
    ensures Put(a, k, v) == a + [(k, v)]
  {
    if a != [] {
      assert a[0].0 != k && k !in Keys(a[1..]) by {
        assert Keys(a) == [a[0].0] + Keys(a[1..]);
      }
      PutAbsent(a[1..], k, v);
      PutPast(a, k, v);
      ConsAppend(a, (k, v));
    }
  }

  lemma FreshCons(x: Key, ks: seq<Key>, seen: seq<Key>)
    ensures Fresh([x] + ks, seen) == (if x in seen then [] else [x]) + Fresh(ks, seen)
  {
    assert ([x] + ks)[1..] == ks;
  }

  lemma {:induction false} FreshSkips(ks: seq<Key>, seen: seq<Key>, x: Key)
    requires x !in ks
    ensures Fresh(ks, seen + [x]) == Fresh(ks, seen)
  {
    if ks != [] {
      FreshSkips(ks[1..], seen, x);
    }
  }

  lemma Associative<T>(a: seq<T>, b: seq<T>, c: seq<T>)
    ensures (a + b) + c == a + (b + c)
  {
  }

  lemma ConsAppend<T>(a: seq<T>, x: T)
    requires a != []
    ensures [a[0]] + (a[1..] + [x]) == a + [x]
  {
    assert a == [a[0]] + a[1..];
  }

  lemma SplitFirst<T>(a: seq<T>, r: seq<T>)
    requires r != []
    ensures a + [r[0]] + r[1..] == a + r
  {
    assert r == [r[0]] + r[1..];
  }

  lemma WellFormedTail(a: PhpArray)
    requires a != [] && WellFormed(a)
    ensures Keys(a) == [a[0].0] + Keys(a[1..])
    ensures WellFormed(a[1..]) && a[0].0 !in Keys(a[1..])
  {
    assert Keys(a) == [a[0].0] + Keys(a[1..]);
  }

  /** In a proper array, each entry is what a lookup of its key finds. */
  lemma {:induction false} LookupAt(a: PhpArray, i: nat)
    requires WellFormed(a) && i < |a|
    ensures Lookup(a, a[i].0) == Some(a[i].1)
  {
    if i > 0 {
      WellFormedTail(a);
      assert a[0].0 != a[i].0;
      LookupAt(a[1..], i - 1);
    }
  }

  // ---------------------------------------------------------------------
  // Lemmas about array_merge

  /** A string lookup in a merge reads the merged-in array when it holds the
      key and the accumulated array otherwise; renumbered integer entries do
      not disturb string keys. */
  lemma {:induction false} MergeIntoStrLookup(acc: PhpArray, rest: PhpArray, next: int, s: string)
    requires WellFormed(rest)
    ensures Lookup(MergeInto(acc, rest, next), StrKey(s)) ==
      if StrKey(s) in Keys(rest) then Lookup(rest, StrKey(s)) else Lookup(acc, StrKey(s))
    decreases |rest|
  {
    if rest != [] {
      var k, v := rest[0].0, rest[0].1;
      WellFormedTail(rest);
      if k.StrKey? {
        MergeIntoStrLookup(Put(acc, k, v), rest[1..], next, s);
      } else {
        MergeIntoStrLookup(acc + [(IntKey(next), v)], rest[1..], next + 1, s);
        LookupAppend(acc, (IntKey(next), v), StrKey(s));
      }
    }
  }

  /** Merging string-keyed entries whose keys are all new appends them. */
  lemma {:induction false} MergeIntoDisjoint(acc: PhpArray, rest: PhpArray, next: int)
    requires StringKeyed(rest) && WellFormed(rest)
    requires forall k :: k in Keys(rest) ==> k !in Keys(acc)
    ensures MergeInto(acc, rest, next) == acc + rest
    decreases |rest|
  {
    if rest != [] {
      var e := rest[0];
      WellFormedTail(rest);
      assert e.0.StrKey? && e.0 !in Keys(acc);
      PutAbsent(acc, e.0, e.1);
      KeysAppend(acc, e);
      assert MergeInto(acc, rest, next) == MergeInto(acc + [e], rest[1..], next);
      forall k | k in Keys(rest[1..]) ensures k !in Keys(acc + [e]) {
        assert k in Keys(rest) && k != e.0;
      }
      assert StringKeyed(rest[1..]);
      MergeIntoDisjoint(acc + [e], rest[1..], next);
      SplitFirst(acc, rest);
    }
  }

  /** Merging string-keyed entries keeps the accumulated keys in place and
      appends the new keys in their order. */
  lemma {:induction false} MergeIntoKeys(acc: PhpArray, rest: PhpArray, next: int)
    requires StringKeyed(rest) && WellFormed(rest)
    ensures Keys(MergeInto(acc, rest, next)) == Keys(acc) + Fresh(Keys(rest), Keys(acc))
    decreases |rest|
  {
    if rest != [] {
      var k := rest[0].0;
      var tail := Keys(rest[1..]);
      WellFormedTail(rest);
      assert k.StrKey? && StringKeyed(rest[1..]);
      var acc' := Put(acc, k, rest[0].1);
      assert MergeInto(acc, rest, next) == MergeInto(acc', rest[1..], next);
      MergeIntoKeys(acc', rest[1..], next);
      FreshCons(k, tail, Keys(acc));
      var result := MergeInto(acc, rest, next);
      if k in Keys(acc) {
        assert Keys(acc') == Keys(acc);
        assert Fresh(Keys(rest), Keys(acc)) == Fresh(tail, Keys(acc)) by {
          assert [] + Fresh(tail, Keys(acc)) == Fresh(tail, Keys(acc));
        }
      } else {
        assert Keys(acc') == Keys(acc) + [k];
        FreshSkips(tail, Keys(acc), k);
        assert Keys(result) == (Keys(acc) + [k]) + Fresh(tail, Keys(acc));
        assert Fresh(Keys(rest), Keys(acc)) == [k] + Fresh(tail, Keys(acc));
        Associative(Keys(acc), [k], Fresh(tail, Keys(acc)));
      }
    }
  }

  lemma PutWellFormed(a: PhpArray, k: Key, v: Value)
    requires WellFormed(a)
    ensures WellFormed(Put(a, k, v))
    ensures forall k' :: k' in Keys(Put(a, k, v)) ==> k' in Keys(a) || k' == k
  {
  }

  lemma AppendWellFormed(a: PhpArray, e: Entry)
    requires WellFormed(a) && e.0 !in Keys(a)
    ensures WellFormed(a + [e])
    ensures Keys(a + [e]) == Keys(a) + [e.0]
  {
    KeysAppend(a, e);
  }

  /** Whatever the inputs, the merge loop never produces a repeated key and
      numbers integer keys below next plus the integer keys it consumed. */
  lemma {:induction false} MergeIntoWellFormed(acc: PhpArray, rest: PhpArray, next: int)
    requires WellFormed(acc)
    requires forall k :: k in Keys(acc) && k.IntKey? ==> k.index < next
    ensures WellFormed(MergeInto(acc, rest, next))
    ensures forall k :: k in Keys(MergeInto(acc, rest, next)) && k.IntKey? ==>
      k.index < next + CountIntKeys(rest)
    decreases |rest|
  {
    if rest != [] {
      var k, v := rest[0].0, rest[0].1;
      if k.StrKey? {
        var acc' := Put(acc, k, v);
        PutWellFormed(acc, k, v);
        assert MergeInto(acc, rest, next) == MergeInto(acc', rest[1..], next);
        assert CountIntKeys(rest) == CountIntKeys(rest[1..]);
        MergeIntoWellFormed(acc', rest[1..], next);
      } else {
        var e := (IntKey(next), v);
        AppendWellFormed(acc, e);
        assert MergeInto(acc, rest, next) == MergeInto(acc + [e], rest[1..], next + 1);
        assert CountIntKeys(rest) == 1 + CountIntKeys(rest[1..]);
        MergeIntoWellFormed(acc + [e], rest[1..], next + 1);
      }
    }
  }

  lemma {:induction false} StringKeyedCount(a: PhpArray)
    requires StringKeyed(a)
    ensures CountIntKeys(a) == 0
  {
    if a != [] {
      StringKeyedCount(a[1..]);
    }
  }

  /** When the first array has string keys only, `array_merge` leaves it as
      it is and merges the second one into it. */
  lemma ArrayMergeStringKeyed(a: PhpArray, b: PhpArray)
    requires StringKeyed(a) && WellFormed(a)
    ensures ArrayMerge(a, b) == MergeInto(a, b, 0)
  {
    MergeIntoDisjoint([], a, 0);
    assert [] + a == a;
    StringKeyedCount(a);
  }

  /** A string key of the merge holds b's value when b has the key and a's
      value otherwise. */
  lemma ArrayMergeStrLookup(a: PhpArray, b: PhpArray, s: string)
    requires WellFormed(a) && WellFormed(b)
    ensures Lookup(ArrayMerge(a, b), StrKey(s)) ==
      if StrKey(s) in Keys(b) then Lookup(b, StrKey(s)) else Lookup(a, StrKey(s))
  {
    MergeIntoStrLookup([], a, 0, s);
    MergeIntoStrLookup(MergeInto([], a, 0), b, CountIntKeys(a), s);
  }
}
