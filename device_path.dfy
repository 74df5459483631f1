/**
 * How the example programs turn the device argument into the path of a device node:
 * the argument's text (or a default when it is absent) is used as a path, unless it
 * parses as a `u64`, in which case it is an index and names "/dev/video" followed by
 * the text exactly as given.
 */
module DevicePath {
  import opened Common

  const VideoPrefix: string := "/dev/video"

  predicate IsDigit(c: char) {
    '0' <= c <= '9'
  }

  function DigitValue(c: char): nat
    requires IsDigit(c)
  {
    c as int - '0' as int
  }

  predicate AllDigits(s: string) {
    forall i :: 0 <= i < |s| ==> IsDigit(s[i])
  }

  /** The positional value of a decimal digit string, without any width limit. */
  function DecimalValue(s: string): nat
    requires AllDigits(s)
    decreases |s|
  {
    if s == [] then 0 else DecimalValue(s[..|s| - 1]) * 10 + DigitValue(s[|s| - 1])
  }

  /** The digits after the one optional leading '+'. */
  function Unsigned(s: string): string {
    if |s| > 0 && s[0] == '+' then s[1..] else s
  }

  /**
   * The text Rust's `u64` parser accepts: one optional '+', then one or more ASCII
   * digits whose value is at most `u64::MAX` (leading zeros allowed).
   */
  predicate IsU64Text(s: string) {
    var digits := Unsigned(s);
    |digits| > 0 && AllDigits(digits) && DecimalValue(digits) <= U64Max
  }

  /** One step of the parse loop: `acc.checked_mul(10)` then `checked_add(digit)`. */
  function Step(acc: u64, c: char): Option<u64> {
    if !IsDigit(c) then None
    else
      var next := acc * 10 + DigitValue(c);
      if next <= U64Max then Some(next) else None
  }

  /** The parse loop over the remaining digits, stopping at the first failed step. */
  function Accumulate(acc: u64, s: string): Option<u64>
    decreases |s|
  {
    if s == [] then Some(acc)
    else
      match Step(acc, s[0])
      case None => None
      case Some(next) => Accumulate(next, s[1..])
  }

  /** Running the loop over `s + [c]` is running it over `s`, then one more step. */
  lemma {:induction false} AccumulateSnoc(acc: u64, s: string, c: char)
    ensures Accumulate(acc, s + [c]) == match Accumulate(acc, s) case None => None case Some(a) => Step(a, c)
    decreases |s|
  {
    if s == [] {
      assert [c][1..] == [];
    } else {
      assert (s + [c])[0] == s[0];
      assert (s + [c])[1..] == s[1..] + [c];
      match Step(acc, s[0])
      case None =>
      case Some(next) => AccumulateSnoc(next, s[1..], c);
    }
  }

  /**
   * The checked loop from zero succeeds exactly on digit strings whose exact value fits
   * in 64 bits, and then yields that value.
   */
  lemma {:induction false} AccumulateIsDecimal(s: string)
    ensures Accumulate(0, s).Some? <==> AllDigits(s) && DecimalValue(s) <= U64Max
    ensures Accumulate(0, s).Some? ==> Accumulate(0, s).value == DecimalValue(s)
    decreases |s|
  {
    if s != [] {
      var t, c := s[..|s| - 1], s[|s| - 1];
      assert s == t + [c];
      AccumulateSnoc(0, t, c);
      AccumulateIsDecimal(t);
      assert AllDigits(s) <==> AllDigits(t) && IsDigit(c);
      if AllDigits(s) {
        assert DecimalValue(s) == DecimalValue(t) * 10 + DigitValue(c);
      }
    }
  }

  /**
   * `s.parse::<u64>()`: empty text and a lone sign are rejected, one leading '+' is
   * dropped, and the checked loop runs over the rest.
   */
  function ParseU64(s: string): (r: Option<u64>)
    ensures r.Some? <==> IsU64Text(s)
    ensures r.Some? ==> r.value == DecimalValue(Unsigned(s))
  {
    AccumulateIsDecimal(Unsigned(s));
    if s == [] then None
    else if |s| == 1 && (s[0] == '+' || s[0] == '-') then None
    else Accumulate(0, Unsigned(s))
  }

  /**
   * The path for the device argument `value` with fallback `default`: numeric text
   * names "/dev/video" + the text as spelled; any other text is the path itself.
   */
  function Resolve(value: Option<string>, default: string): (path: string)
    ensures var text := value.GetOr(default);
      && (IsU64Text(text) ==> path == VideoPrefix + text)
      && (!IsU64Text(text) ==> path == text)
  {
    var text := value.GetOr(default);
    if ParseU64(text).Some? then VideoPrefix + text else text
  }

  /** A resolved path never parses as a `u64`: it is either non-numeric text or begins with '/'. */
  lemma ResolvedIsNotIndex(value: Option<string>, default: string)
    ensures !IsU64Text(Resolve(value, default))
  {
  }

  /** Resolving a resolved path again, whatever the fallback, changes nothing. */
  lemma ResolveIdempotent(value: Option<string>, default: string, default': string)
    ensures Resolve(Some(Resolve(value, default)), default') == Resolve(value, default)
  {
  }

  /** Worked cases: the spelling of an index is kept; a sign, a path or an overflow is not an index. */
  lemma ResolveExamples()
    ensures Resolve(None, "/dev/video0") == "/dev/video0"
    ensures Resolve(Some("3"), "/dev/video0") == "/dev/video3"
    ensures Resolve(Some("007"), "/dev/video0") == "/dev/video007"
    ensures Resolve(Some("+3"), "/dev/video0") == "/dev/video+3"
    ensures Resolve(Some("-1"), "/dev/video0") == "-1"
    ensures Resolve(Some(""), "/dev/video0") == ""
    ensures Resolve(Some("/dev/video2"), "/dev/video0") == "/dev/video2"
  {
  }

  /** Appending a digit multiplies the value by ten and adds the digit. */
  lemma DecimalValueSnoc(s: string, c: char)
    requires AllDigits(s) && IsDigit(c)
    ensures AllDigits(s + [c])
    ensures DecimalValue(s + [c]) == DecimalValue(s) * 10 + DigitValue(c)
  {
  }

  /** `u64::MAX`, its leading ten digits, and the number after it, written out in decimal. */
  const U64MaxText: string := "18446744073709551615"
  const U64MaxHighText: string := "1844674407"
  const AboveU64MaxText: string := "18446744073709551616"

  /** The value of the leading ten digits of `u64::MAX`. */
  lemma DecimalValueHighDigits()
    ensures AllDigits(U64MaxHighText) && DecimalValue(U64MaxHighText) == 1844674407
  {
    var t: string := "1";
    assert DecimalValue(t) == 1;
    DecimalValueSnoc(t, '8');
    t := t + ['8'];
    DecimalValueSnoc(t, '4');
    t := t + ['4'];
    DecimalValueSnoc(t, '4');
    t := t + ['4'];
    DecimalValueSnoc(t, '6');
    t := t + ['6'];
    DecimalValueSnoc(t, '7');
    t := t + ['7'];
    DecimalValueSnoc(t, '4');
    t := t + ['4'];
    DecimalValueSnoc(t, '4');
    t := t + ['4'];
    DecimalValueSnoc(t, '0');
    t := t + ['0'];
    DecimalValueSnoc(t, '7');
    t := t + ['7'];
    assert t == U64MaxHighText;
  }

  /** The value of `u64::MAX` written out in decimal. */
  lemma DecimalValueOfMax()
    ensures AllDigits(U64MaxText) && DecimalValue(U64MaxText) == U64Max
  {
    var t := U64MaxHighText;
    DecimalValueHighDigits();
    DecimalValueSnoc(t, '3');
    t := t + ['3'];
    DecimalValueSnoc(t, '7');
    t := t + ['7'];
    DecimalValueSnoc(t, '0');
    t := t + ['0'];
    DecimalValueSnoc(t, '9');
    t := t + ['9'];
    DecimalValueSnoc(t, '5');
    t := t + ['5'];
    DecimalValueSnoc(t, '5');
    t := t + ['5'];
    DecimalValueSnoc(t, '1');
    t := t + ['1'];
    DecimalValueSnoc(t, '6');
    t := t + ['6'];
    DecimalValueSnoc(t, '1');
    t := t + ['1'];
    DecimalValueSnoc(t, '5');
    t := t + ['5'];
    assert t == U64MaxText;
  }

  /** The value of `u64::MAX` + 1 written out in decimal. */
  lemma DecimalValueAboveMax()
    ensures AllDigits(AboveU64MaxText) && DecimalValue(AboveU64MaxText) == U64Max + 1
  {
    var prefix := U64MaxText[..19];
    DecimalValueOfMax();
    DecimalValueSnoc(prefix, '5');
    DecimalValueSnoc(prefix, '6');
    assert prefix + ['5'] == U64MaxText;
    assert prefix + ['6'] == AboveU64MaxText;
  }

  /** The 64-bit bound: `u64::MAX` written out is an index, one more is not. */
  lemma ResolveAtU64Bound()
    ensures Resolve(Some(U64MaxText), "/dev/video0") == VideoPrefix + U64MaxText
    ensures Resolve(Some(AboveU64MaxText), "/dev/video0") == AboveU64MaxText
  {
    DecimalValueOfMax();
    DecimalValueAboveMax();
    assert Unsigned(U64MaxText) == U64MaxText && Unsigned(AboveU64MaxText) == AboveU64MaxText;
  }
}
