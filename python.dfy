/**
 The part of Python's value semantics that the purge checks rely on.

 A check handed to the cleanup scan is any callable whose result is used
 for its truth value, and `and` / `or` return one of their operands rather
 than a bool, so `len(m.embeds) or len(m.attachments)` yields an int and
 `prefix and s.startswith(prefix)` may yield a string or None. `Value`
 keeps those results as they are, and `Truthy` decides them.
 */
module Python {

  datatype Option<+T> = None | Some(value: T)

  /** A Python value as a message check produces it. `MatchObject` is what
      a successful `re.search` returns; a failed one returns None. */
  datatype Value = NoneValue | Bool(b: bool) | Int(i: int) | Str(s: string) | MatchObject

  /** Python's truth value: None, False, 0 and "" are false, everything else true. */
  predicate Truthy(v: Value)
  {
    match v
    case NoneValue => false
    case Bool(b) => b
    case Int(i) => i != 0
    case Str(s) => s != ""
    case MatchObject => true
  }

  /** `a and b`: `a` itself when it is false, otherwise `b`. */
  function And(a: Value, b: Value): (r: Value)
    ensures Truthy(r) <==> Truthy(a) && Truthy(b)
    ensures r == a || r == b
  {
    if Truthy(a) then b else a
  }

  /** `a or b`: `a` itself when it is true, otherwise `b`. */
  function Or(a: Value, b: Value): (r: Value)
    ensures Truthy(r) <==> Truthy(a) || Truthy(b)
    ensures r == a || r == b
  {
    if Truthy(a) then a else b
  }

  /** `len(xs)` for a collection of `n` elements. */
  function Len(n: nat): (r: Value)
    ensures Truthy(r) <==> n > 0
  {
    Int(n)
  }

  /** The result of `pattern.search(text)`, given whether the pattern occurs. */
  function Search(found: bool): (r: Value)
    ensures Truthy(r) <==> found
  {
    if found then MatchObject else NoneValue
  }

  /** An optional string argument as a Python value: None or the string. */
  function OptionalStr(s: Option<string>): (r: Value)
    ensures Truthy(r) <==> s.Some? && s.value != ""
  {
    match s
    case None => NoneValue
    case Some(t) => Str(t)
  }

  /** `s.startswith(prefix)`. */
  predicate StartsWith(s: string, prefix: string)
  {
    |prefix| <= |s| && s[..|prefix|] == prefix
  }

  /** `s.endswith(suffix)`. */
  predicate EndsWith(s: string, suffix: string)
  {
    |suffix| <= |s| && s[|s| - |suffix|..] == suffix
  }

  /** `needle` occurs in `hay` starting at index `k`. */
  predicate OccursAt(needle: string, hay: string, k: nat)
  {
    k + |needle| <= |hay| && hay[k..k + |needle|] == needle
  }

  /** `needle in hay` on strings: `needle` occurs somewhere in `hay`. */
  predicate In(needle: string, hay: string)
  {
    exists k: nat | k <= |hay| :: OccursAt(needle, hay, k)
  }

  /** `in` agrees with concatenation: a string is found wherever it was put. */
  lemma InConcat(before: string, needle: string, after: string)
    ensures In(needle, before + needle + after)
  {
    var hay := before + needle + after;
    assert hay[|before|..|before| + |needle|] == needle;
    assert OccursAt(needle, hay, |before|);
  }

  predicate IsDigit(c: char)
  {
    '0' <= c <= '9'
  }

  function DigitChar(d: nat): (c: char)
    requires d < 10
    ensures IsDigit(c)
  {
    ('0' as int + d) as char
  }

  /** How an int `n >= 0` prints in an f-string: its decimal digits, no leading zero. */
  function Decimal(n: nat): (s: string)
    ensures |s| >= 1
    ensures forall i :: 0 <= i < |s| ==> IsDigit(s[i])
    ensures |s| > 1 ==> s[0] != '0'
  {
    if n < 10 then [DigitChar(n)] else Decimal(n / 10) + [DigitChar(n % 10)]
  }

  function DigitValue(c: char): nat
    requires IsDigit(c)
  {
    c as int - '0' as int
  }

  /** Reads a string of decimal digits back as a number. */
  function ParseDecimal(s: string): nat
    requires forall i :: 0 <= i < |s| ==> IsDigit(s[i])
  {
    if s == [] then 0
    else ParseDecimal(s[..|s| - 1]) * 10 + DigitValue(s[|s| - 1])
  }

  /** `s` is how `n` prints: a non-empty run of decimal digits, with no leading
      zero, that reads as `n`. */
  predicate ReadsAs(s: string, n: nat)
  {
    |s| >= 1 && (|s| > 1 ==> s[0] != '0') &&
    (forall i :: 0 <= i < |s| ==> IsDigit(s[i])) && ParseDecimal(s) == n
  }

  /** The printed number reads back as the number printed. */
  lemma {:induction false} DecimalRoundTrip(n: nat)
    ensures ParseDecimal(Decimal(n)) == n
  {
    if n >= 10 {
      DecimalRoundTrip(n / 10);
      var s := Decimal(n);
      assert s[..|s| - 1] == Decimal(n / 10);
    }
  }

  /** A number printed between two fixed texts, as in `f"{head}{n}{tail}"`, is
      found again between them. */
  lemma CountBetween(head: string, n: nat, tail: string)
    ensures |head| + |tail| < |head + Decimal(n) + tail|
    ensures ReadsAs((head + Decimal(n) + tail)[|head|..|head + Decimal(n) + tail| - |tail|], n)
  {
    var s := head + Decimal(n) + tail;
    assert s[|head|..|s| - |tail|] == Decimal(n);
    DecimalRoundTrip(n);
  }
}
