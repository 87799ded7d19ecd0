/**
 * The JavaScript values the sample read path handles: query parameter
 * values, cache replies and decoded records. Objects are maps from
 * property name to value; a missing property reads as `Undefined`.
 */
module Values {
  import opened Wrappers

  datatype Value =
    | Undefined
    | Null
    | Bool(b: bool)
    | Num(n: int)
    | Str(s: string)
    | Arr(items: seq<Value>)
    | Obj(fields: map<string, Value>)

  type Record = map<string, Value>

  /** A thrown JavaScript error, caught by the caller's error handler. */
  datatype Error = TypeError(message: string)

  /** JavaScript truthiness (NaN is not represented). */
  predicate Truthy(v: Value) {
    match v
    case Undefined => false
    case Null => false
    case Bool(b) => b
    case Num(n) => n != 0
    case Str(s) => s != ""
    case Arr(_) => true
    case Obj(_) => true
  }

  /** Property read `m[k]`. */
  function Get(m: Record, k: string): Value {
    if k in m then m[k] else Undefined
  }

  /** Hash replies are an object or null; anything but an object is absent. */
  function AsRecord(v: Value): Option<Record> {
    if v.Obj? then Some(v.fields) else None
  }

  function LowerChar(c: char): char {
    if 'A' <= c <= 'Z' then (c as int + 32) as char else c
  }

  /** `String.prototype.toLowerCase`, over the ASCII letters. */
  function Lower(s: string): (r: string)
    ensures |r| == |s|
    ensures forall i :: 0 <= i < |s| ==> r[i] == LowerChar(s[i])
  {
    if s == [] then [] else [LowerChar(s[0])] + Lower(s[1..])
  }

  /** The text after the first '|' of `s`, or None when `s` has none. */
  function AfterFirstBar(s: string): (r: Option<string>)
    ensures r.None? <==> '|' !in s
    ensures r.Some? ==>
      var p := |s| - |r.value| - 1;
      0 <= p && s[p] == '|' && '|' !in s[..p] && s[p + 1..] == r.value
  {
    if s == [] then None
    else if s[0] == '|' then Some(s[1..])
    else AfterFirstBar(s[1..])
  }

  /** The longest prefix of `s` holding no '|'. */
  function UpToBar(s: string): (r: string)
    ensures |r| <= |s| && r == s[..|r|]
    ensures '|' !in r
    ensures |r| < |s| ==> s[|r|] == '|'
  {
    if s == [] || s[0] == '|' then [] else [s[0]] + UpToBar(s[1..])
  }

  /** `s.split('|')[1]`: the second '|'-separated segment, or undefined. */
  function SplitSecond(s: string): (r: Value)
    ensures r.Undefined? || r.Str?
    ensures r.Undefined? <==> '|' !in s
    ensures r.Str? ==> '|' !in r.s && |r.s| < |s|
  {
    match AfterFirstBar(s)
    case None => Undefined
    case Some(rest) => Str(UpToBar(rest))
  }

  /** Lower-casing twice is lower-casing once. */
  lemma LowerIdempotent(s: string)
    ensures Lower(Lower(s)) == Lower(s)
  {
  }

  /** A string value lower-cased; other values unchanged. */
  function LowerValue(v: Value): Value {
    if v.Str? then Str(Lower(v.s)) else v
  }

  /**
   * Splitting a composite name `subject|aspect` (optionally followed by
   * further '|' segments) yields exactly its aspect part.
   */
  lemma {:induction false} SplitSecondOfComposite(subject: string, aspect: string, tail: string)
    requires '|' !in subject && '|' !in aspect
    requires tail == [] || tail[0] == '|'
    ensures SplitSecond(subject + "|" + aspect + tail) == Str(aspect)
  {
    var s := subject + "|" + aspect + tail;
    if subject == [] {
      assert s[0] == '|' && s[1..] == aspect + tail;
      UpToBarOfPrefix(aspect, tail);
    } else {
      assert s[0] == subject[0] && s[1..] == subject[1..] + "|" + aspect + tail;
      SplitSecondOfComposite(subject[1..], aspect, tail);
    }
  }

  lemma {:induction false} UpToBarOfPrefix(a: string, tail: string)
    requires '|' !in a
    requires tail == [] || tail[0] == '|'
    ensures UpToBar(a + tail) == a
  {
    if a != [] {
      assert (a + tail)[0] == a[0] && (a + tail)[1..] == a[1..] + tail;
      UpToBarOfPrefix(a[1..], tail);
    }
  }

  /**
   * Lower-casing a name and then taking its aspect segment gives the
   * lower-cased aspect segment of the original name.
   */
  lemma {:induction false} SplitSecondOfLower(s: string)
    ensures SplitSecond(Lower(s)) == LowerValue(SplitSecond(s))
  {
    AfterFirstBarOfLower(s);
    match AfterFirstBar(s)
    case None =>
    case Some(rest) => UpToBarOfLower(rest);
  }

  lemma {:induction false} AfterFirstBarOfLower(s: string)
    ensures AfterFirstBar(Lower(s)) ==
      (if AfterFirstBar(s).Some? then Some(Lower(AfterFirstBar(s).value)) else None)
  {
    if s != [] {
      var l := Lower(s);
      assert l[0] == LowerChar(s[0]) && l[1..] == Lower(s[1..]);
      if s[0] != '|' {
        AfterFirstBarOfLower(s[1..]);
      }
    }
  }

  lemma UpToBarOfLower(s: string)
    ensures UpToBar(Lower(s)) == Lower(UpToBar(s))
  {

  }
}
