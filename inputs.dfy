/** The form: its four fields, the `trim` applied to text, and the guard on the
    usage-hours field (script.js:26-34, 43-46). */
module Inputs {
  import opened Numbers

  /** White space and line terminators removed by JavaScript's `String.prototype.trim`. */
  predicate IsJsSpace(c: char) {
    c == '\t' || c == '\n' || c == '\U{000B}' || c == '\U{000C}' || c == '\r' || c == ' '
    || c == '\U{00A0}' || c == '\U{1680}' || ('\U{2000}' <= c <= '\U{200A}')
    || c == '\U{2028}' || c == '\U{2029}' || c == '\U{202F}' || c == '\U{205F}'
    || c == '\U{3000}' || c == '\U{FEFF}'
  }

  /** `s` with its leading white space removed. */
  function TrimStart(s: string): (r: string)
    ensures |r| <= |s| && r == s[|s| - |r|..]
    ensures r == [] || !IsJsSpace(r[0])
    ensures forall i :: 0 <= i < |s| - |r| ==> IsJsSpace(s[i])
  {
    if s != [] && IsJsSpace(s[0]) then TrimStart(s[1..]) else s
  }

  /** `s` with its trailing white space removed. */
  function TrimEnd(s: string): (r: string)
    ensures |r| <= |s| && r == s[..|r|]
    ensures r == [] || !IsJsSpace(r[|r| - 1])
    ensures forall i :: |r| <= i < |s| ==> IsJsSpace(s[i])
  {
    if s != [] && IsJsSpace(s[|s| - 1]) then TrimEnd(s[..|s| - 1]) else s
  }

  /** `s.trim()`. */
  function Trim(s: string): (r: string)
    ensures |r| <= |s|
    ensures r == [] || (!IsJsSpace(r[0]) && !IsJsSpace(r[|r| - 1]))
  {
    TrimEnd(TrimStart(s))
  }

  /** `s.trim()` is the part of `s` between its leading and its trailing white space:
      a slice `s[a..a + |Trim(s)|]` with only white space before and after it. */
  lemma TrimIsSlice(s: string)
    ensures var r, a := Trim(s), |s| - |TrimStart(s)|;
            a + |r| <= |s| && r == s[a..a + |r|]
            && (forall i :: 0 <= i < a ==> IsJsSpace(s[i]))
            && (forall i :: a + |r| <= i < |s| ==> IsJsSpace(s[i]))
  {
    var t := TrimStart(s);
    var r := TrimEnd(t);
    assert Trim(s) == r;
    SliceBetween(s, t, r);
  }

  /** A prefix `r` of a suffix `t` of `s`, with only white space cut off at either
      end, is the slice of `s` between that white space. */
  lemma SliceBetween(s: string, t: string, r: string)
    requires |t| <= |s| && t == s[|s| - |t|..] && forall i :: 0 <= i < |s| - |t| ==> IsJsSpace(s[i])
    requires |r| <= |t| && r == t[..|r|] && forall i :: |r| <= i < |t| ==> IsJsSpace(t[i])
    ensures var a := |s| - |t|;
            a + |r| <= |s| && r == s[a..a + |r|]
            && (forall i :: 0 <= i < a ==> IsJsSpace(s[i]))
            && (forall i :: a + |r| <= i < |s| ==> IsJsSpace(s[i]))
  {
    var a := |s| - |t|;
    assert t[..|r|] == s[a..a + |r|];
    forall i | a + |r| <= i < |s| ensures IsJsSpace(s[i]) {
      assert s[i] == t[i - a];
    }
  }

  /** The trimmed text is empty exactly when the text is nothing but white space. */
  lemma TrimEmptyIff(s: string)
    ensures Trim(s) == [] <==> forall i :: 0 <= i < |s| ==> IsJsSpace(s[i])
  {
  }

  /** Trimming twice is trimming once. */
  lemma TrimIdempotent(s: string)
    ensures Trim(Trim(s)) == Trim(s)
  {
    var t := Trim(s);
    assert TrimStart(t) == t;
  }

  /** A numeric input field: its text and `Number(text)`, which the caller supplies
      because the conversion of text to a number is not modelled. */
  datatype Field = Field(text: string, number: Num)

  /** The device form: name, usage hours, power in watts and price per kWh. */
  datatype Form = Form(name: string, hours: Field, power: Field, price: Field)

  /** The check `addOrUpdateDevice` makes before adding: a non-empty trimmed name and
      three numbers none of which is NaN. */
  predicate AcceptsForm(f: Form)
    ensures AcceptsForm(f) ==> AnyFieldFilled(f)
  {
    Trim(f.name) != [] && !f.hours.number.NaN? && !f.power.number.NaN? && !f.price.number.NaN?
  }

  /** Whether any field holds more than white space (the test of the Calculate button). */
  predicate AnyFieldFilled(f: Form)
    ensures !AnyFieldFilled(f) ==> forall i :: 0 <= i < |f.name| ==> IsJsSpace(f.name[i])
  {
    TrimEmptyIff(f.name);
    Trim(f.name) != [] || Trim(f.hours.text) != [] || Trim(f.power.text) != [] || Trim(f.price.text) != []
  }

  const MaxHours: real := 24.0
  const TooManyHoursMessage: string := "Максимум 24 часа в сутки!"

  /** What the usage-hours field holds, and the message shown, after the input guard. */
  datatype HoursCheck = HoursCheck(field: Num, message: string)

  /** The guard run on every edit of the usage-hours field: a value above 24 is
      replaced by 24 and the warning shown; any other value is left and the
      warning cleared. */
  function GuardHours(value: Num): (r: HoursCheck)
    ensures !GreaterThan(r.field, MaxHours)
    ensures r.message != [] <==> GreaterThan(value, MaxHours)
    ensures r.field != value ==> GreaterThan(value, MaxHours) && r.field == Fin(MaxHours)
  {
    if GreaterThan(value, MaxHours) then HoursCheck(Fin(MaxHours), TooManyHoursMessage)
    else HoursCheck(value, "")
  }

  /** Running the guard on what it left changes nothing further and shows no warning. */
  lemma GuardHoursIdempotent(value: Num)
    ensures GuardHours(GuardHours(value).field) == HoursCheck(GuardHours(value).field, "")
  {
  }
}
