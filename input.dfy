/**
 * Request values as the controllers see them after Laravel's input
 * middleware, and the validation rules they are checked against.
 *
 * A scalar request field is `None` when it is null (an empty form field is
 * converted to null before validation) and `Some(text)` otherwise.
 */
module Input {

  datatype Option<T> = None | Some(value: T)

  /** Laravel's `ConvertEmptyStringsToNull`: a request's empty text field arrives as null. */
  function Nullable(s: string): (v: Option<string>)
    ensures v.None? <==> s == ""
    ensures v.Some? ==> v.value == s
  {
    if s == "" then None else Some(s)
  }

  /** Laravel's `required` rule on a scalar: present and not the empty string. */
  predicate Filled(v: Option<string>) {
    v.Some? && v.value != ""
  }

  predicate IsDigit(c: char) {
    '0' <= c <= '9'
  }

  predicate AllDigits(s: string) {
    forall i :: 0 <= i < |s| ==> IsDigit(s[i])
  }

  /** The text after an optional leading sign. */
  function Unsigned(s: string): (d: string)
    ensures |d| <= |s|
  {
    if |s| > 0 && (s[0] == '-' || s[0] == '+') then s[1..] else s
  }

  /**
   * Laravel's `integer` rule, which accepts exactly what PHP's
   * FILTER_VALIDATE_INT accepts: an optional sign, then decimal digits
   * without a leading zero (a lone "0" is allowed).
   */
  predicate IsIntegerText(s: string) {
    var d := Unsigned(s);
    |d| > 0 && AllDigits(d) && (d[0] != '0' || |d| == 1)
  }

  /** The value of a string of decimal digits. */
  function DigitsValue(d: string): nat
    requires AllDigits(d)
  {
    if d == [] then 0 else 10 * DigitsValue(d[..|d| - 1]) + (d[|d| - 1] as int - '0' as int)
  }

  /** The integer an `integer`-valid text denotes. */
  function IntegerValue(s: string): int
    requires IsIntegerText(s)
  {
    if s[0] == '-' then -(DigitsValue(Unsigned(s)) as int) else DigitsValue(Unsigned(s))
  }

  /** `required|integer`. */
  predicate IntegerGiven(v: Option<string>) {
    v.Some? && IsIntegerText(v.value)
  }

  /** `nullable|integer`. */
  predicate NullableInteger(v: Option<string>) {
    v.None? || IsIntegerText(v.value)
  }

  /** `nullable|integer|min:0|max:20`, the permitted ages. */
  predicate AgeInRange(v: Option<string>) {
    v.None? || (IsIntegerText(v.value) && 0 <= IntegerValue(v.value) <= 20)
  }

  /** The stored value of a validated nullable integer field: null stays null. */
  function NullableValue(v: Option<string>): (r: Option<int>)
    requires NullableInteger(v)
    ensures r.None? <==> v.None?
    ensures r.Some? ==> r.value == IntegerValue(v.value)
  {
    if v.None? then None else Some(IntegerValue(v.value))
  }

  /** PHP's `(int)` cast of a validated nullable integer field: null becomes 0. */
  function IntCast(v: Option<string>): (r: int)
    requires NullableInteger(v)
    ensures v.None? ==> r == 0
    ensures v.Some? ==> r == IntegerValue(v.value)
  {
    if v.None? then 0 else IntegerValue(v.value)
  }

  /**
   * Laravel's string-syntax rules, which this model does not spell out:
   * `email`, `url`, and the regular expression the farm update applies to
   * e-mail addresses.
   */
  datatype Rules = Rules(isEmail: string -> bool, isUrl: string -> bool, emailPattern: string -> bool)

  /** `nullable|url`. */
  predicate NullableUrl(rules: Rules, v: Option<string>) {
    v.None? || rules.isUrl(v.value)
  }
}
