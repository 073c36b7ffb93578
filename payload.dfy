/**
 * The request parameters: the seven fixed entries built from the fields,
 * merged with optional extras the way `array_merge` merges them.
 */
module Payload {
  import opened PhpArrays
  import opened Expectation

  /** The fixed parameter names, in the order the request carries them. */
  const FixedKeys: seq<Key> := [
    StrKey("token"), StrKey("source"), StrKey("event"), StrKey("every"),
    StrKey("email"), StrKey("sms"), StrKey("message")]

  /** The source that is reported: the stored one, or the host's name when
      the stored source is null. */
  function ReportedSource(f: Fields, hostname: Value): (r: Value)
    ensures f.source != Null ==> r == f.source
    ensures f.source == Null ==> r == hostname
    ensures r == Null <==> f.source == Null && hostname == Null
  {
    if f.source == Null then hostname else f.source
  }

  /** The seven fixed entries; null fields stay present as null. */
  function Base(f: Fields, hostname: Value): PhpArray {
    [(StrKey("token"), f.token),
     (StrKey("source"), ReportedSource(f, hostname)),
     (StrKey("event"), f.event),
     (StrKey("every"), f.every),
     (StrKey("email"), f.email),
     (StrKey("sms"), f.sms),
     (StrKey("message"), f.message)]
  }

  /** `buildPayload($arr_extras)`: the fixed entries, merged with the extras
      when they are an array (None stands for null or any non-array). */
  function Build(f: Fields, hostname: Value, extras: Option<PhpArray>): (r: PhpArray)
    ensures WellFormed(r)
    ensures extras.None? ==> Keys(r) == FixedKeys
  {
    BaseShape(f, hostname);
    match extras
    case None => Base(f, hostname)
    case Some(x) => ArrayMerge(Base(f, hostname), x)
  }

  /** The extras `send` passes: the transport tag under "tx". */
  function TxExtras(tag: string): PhpArray {
    [(StrKey("tx"), Str(tag))]
  }

  lemma BaseShape(f: Fields, hostname: Value)
    ensures Keys(Base(f, hostname)) == FixedKeys
    ensures StringKeyed(Base(f, hostname)) && WellFormed(Base(f, hostname))
  {
    var b := Base(f, hostname);
    var ks := Keys(b);
    assert |ks| == |FixedKeys|;
    forall i | 0 <= i < |ks| ensures ks[i] == FixedKeys[i] {
      assert ks[i] == b[i].0;
    }
    assert ks == FixedKeys;
    FixedKeysDistinct();
  }

  lemma FixedKeysDistinct()
    ensures Distinct(FixedKeys)
  {
  }

  /** Without extras the payload holds exactly the seven fixed keys, in
      order, each with the current field value; the source falls back to the
      host's name only when the stored source is null. */
  lemma BuildWithoutExtras(f: Fields, hostname: Value)
    ensures Keys(Build(f, hostname, None)) == FixedKeys
    ensures Lookup(Build(f, hostname, None), StrKey("token")) == Some(f.token)
    ensures Lookup(Build(f, hostname, None), StrKey("source")) ==
      Some(if f.source == Null then hostname else f.source)
    ensures Lookup(Build(f, hostname, None), StrKey("event")) == Some(f.event)
    ensures Lookup(Build(f, hostname, None), StrKey("every")) == Some(f.every)
    ensures Lookup(Build(f, hostname, None), StrKey("email")) == Some(f.email)
    ensures Lookup(Build(f, hostname, None), StrKey("sms")) == Some(f.sms)
    ensures Lookup(Build(f, hostname, None), StrKey("message")) == Some(f.message)
  {
    var b := Base(f, hostname);
    BaseShape(f, hostname);
    LookupAt(b, 0);
    LookupAt(b, 1);
    LookupAt(b, 2);
    LookupAt(b, 3);
    LookupAt(b, 4);
    LookupAt(b, 5);
    LookupAt(b, 6);
  }

  /** With an extras array: a string key of the extras that is one of the
      fixed keys overwrites it in place, the other string keys follow the
      seven fixed keys in their own order, and every string key reads the
      extras' value if they hold it and the fixed value otherwise. The
      result never repeats a key. */
  lemma BuildWithExtras(f: Fields, hostname: Value, x: PhpArray)
    requires WellFormed(x)
    ensures WellFormed(Build(f, hostname, Some(x)))
    ensures forall s :: Lookup(Build(f, hostname, Some(x)), StrKey(s)) ==
             if StrKey(s) in Keys(x) then Lookup(x, StrKey(s))
             else Lookup(Base(f, hostname), StrKey(s))
    ensures StringKeyed(x) ==>
      Keys(Build(f, hostname, Some(x))) == FixedKeys + Fresh(Keys(x), FixedKeys)
  {
    var b := Base(f, hostname);
    BaseShape(f, hostname);
    forall s ensures Lookup(ArrayMerge(b, x), StrKey(s)) ==
      if StrKey(s) in Keys(x) then Lookup(x, StrKey(s)) else Lookup(b, StrKey(s))
    {
      ArrayMergeStrLookup(b, x, s);
    }
    if StringKeyed(x) {
      ArrayMergeStringKeyed(b, x);
      MergeIntoKeys(b, x, 0);
    }
  }

  /** The payload `send` builds is the fixed payload with one more entry,
      "tx" mapped to the tag, at the end: eight entries in all. */
  lemma BuildTagged(f: Fields, hostname: Value, tag: string)
    ensures Build(f, hostname, Some(TxExtras(tag))) ==
      Build(f, hostname, None) + [(StrKey("tx"), Str(tag))]
    ensures |Build(f, hostname, Some(TxExtras(tag)))| == 8
  {
    var b := Base(f, hostname);
    var x := TxExtras(tag);
    BaseShape(f, hostname);
    assert Keys(x) == [StrKey("tx")];
    assert StringKeyed(x) && WellFormed(x);
    assert StrKey("tx") !in Keys(b);
    ArrayMergeStringKeyed(b, x);
    MergeIntoDisjoint(b, x, 0);
    assert Build(f, hostname, Some(x)) == b + x;
  }
}
