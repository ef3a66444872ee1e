/**
 * The address form of the verify page: three validators, form validity,
 * the postcode keystroke sanitiser, and the form's state as changed by its
 * change, blur and submit handlers.
 */
module VerifyPage {
  import opened Wrappers
  import opened Text

  const States: seq<string> := ["VIC", "NSW", "QLD", "SA", "WA", "TAS", "ACT", "NT"]

  const PostcodeRequired := "Postcode is required."
  const PostcodeNotFourDigits := "Postcode must be 4 digits."
  const SuburbRequired := "Suburb is required."
  const SuburbTooShort := "Suburb is too short."
  const SuburbTooLong := "Suburb is too long."
  const SuburbBadCharacters := "Suburb must only contain letters, spaces, hyphens, or apostrophes."
  const StateRequired := "State is required."
  const StateInvalid := "Invalid state."

  /** `/^\d{4}$/`. */
  predicate IsFourDigits(s: string) {
    |s| == 4 && AllDigits(s)
  }

  /** One character of `[A-Za-z\s'\-]`. */
  predicate IsSuburbChar(c: char) {
    IsAsciiLetter(c) || IsWhitespace(c) || c == '\'' || c == '-'
  }

  /** What the suburb validator accepts, stated on the trimmed value. */
  predicate IsAcceptableSuburb(v: string) {
    2 <= |v| <= 50 && forall i :: 0 <= i < |v| ==> IsSuburbChar(v[i])
  }

  /** validatePostcode: null (None) exactly for four decimal digits. */
  function ValidatePostcode(pc: string): (r: Option<string>)
    ensures r.None? <==> IsFourDigits(pc)
    ensures pc == "" ==> r == Some(PostcodeRequired)
    ensures pc != "" && r.Some? ==> r == Some(PostcodeNotFourDigits)
  {
    if pc == "" then Some(PostcodeRequired)
    else if !IsFourDigits(pc) then Some(PostcodeNotFourDigits)
    else None
  }

  /** validateSuburb: checks the trimmed value for emptiness, length, then characters. */
  function ValidateSuburb(input: string): (r: Option<string>)
    ensures r.None? <==> IsAcceptableSuburb(Trim(input))
    ensures Trim(input) == "" ==> r == Some(SuburbRequired)
    ensures |Trim(input)| == 1 ==> r == Some(SuburbTooShort)
    ensures |Trim(input)| > 50 ==> r == Some(SuburbTooLong)
    ensures 2 <= |Trim(input)| <= 50 && r.Some? ==> r == Some(SuburbBadCharacters)
  {
    var v := Trim(input);
    if v == "" then Some(SuburbRequired)
    else if |v| < 2 then Some(SuburbTooShort)
    else if |v| > 50 then Some(SuburbTooLong)
    else if !(forall i :: 0 <= i < |v| ==> IsSuburbChar(v[i])) then Some(SuburbBadCharacters)
    else None
  }

  /** validateState: null (None) exactly for one of the eight state and territory codes. */
  function ValidateState(st: string): (r: Option<string>)
    ensures r.None? <==> st in States
    ensures st == "" ==> r == Some(StateRequired)
    ensures st != "" && r.Some? ==> r == Some(StateInvalid)
  {
    if st == "" then Some(StateRequired)
    else if st !in States then Some(StateInvalid)
    else None
  }

  /** isFormValid: all three validators return null. */
  predicate IsFormValid(postcode: string, suburb: string, state: string) {
    ValidatePostcode(postcode).None? && ValidateSuburb(suburb).None? && ValidateState(state).None?
  }

  /** The submit button is enabled when no query is in flight and the form is valid. */
  predicate SubmitEnabled(loading: bool, postcode: string, suburb: string, state: string) {
    !loading && IsFormValid(postcode, suburb, state)
  }

  /** The form is valid exactly when each field has the shape its validator asks for. */
  lemma FormValidIff(postcode: string, suburb: string, state: string)
    ensures IsFormValid(postcode, suburb, state) <==>
      IsFourDigits(postcode) && IsAcceptableSuburb(Trim(suburb)) && state in States
  {
  }

  /**
   * The button is enabled exactly when no query is in flight and every field
   * has its required shape, so an enabled button leads to a submitted query.
   */
  lemma SubmitEnabledIff(loading: bool, postcode: string, suburb: string, state: string)
    ensures SubmitEnabled(loading, postcode, suburb, state) <==>
      !loading && IsFourDigits(postcode) && IsAcceptableSuburb(Trim(suburb)) && state in States
  {
  }

  /** `replace(/\D/g, '')`: the digits of `s`, in order. */
  function KeepDigits(s: string): (r: string)
    ensures AllDigits(r) && |r| <= |s|
  {
    if s == [] then []
    else (if IsDigit(s[0]) then [s[0]] else []) + KeepDigits(s[1..])
  }

  lemma {:induction false} KeepDigitsAppend(a: string, b: string)
    ensures KeepDigits(a + b) == KeepDigits(a) + KeepDigits(b)
    decreases |a|
  {
    if a != [] {
      assert (a + b)[1..] == a[1..] + b;
      KeepDigitsAppend(a[1..], b);
    } else {
      assert a + b == b;
    }
  }

  lemma {:induction false} KeepDigitsFixesDigits(s: string)
    requires AllDigits(s)
    ensures KeepDigits(s) == s
  {
    if s != [] {
      KeepDigitsFixesDigits(s[1..]);
      assert [s[0]] + s[1..] == s;
    }
  }

  /**
   * The postcode `onChange` sanitiser, `replace(/\D/g, '').slice(0, 4)`:
   * the first (at most four) digits of what was typed.
   */
  function SanitizePostcode(typed: string): (r: string)
    ensures |r| <= 4 && AllDigits(r)
    ensures |r| <= |KeepDigits(typed)| && r == KeepDigits(typed)[..|r|]
    ensures |r| == 4 || r == KeepDigits(typed)
  {
    var d := KeepDigits(typed);
    if |d| <= 4 then d else d[..4]
  }

  /** Sanitising twice is sanitising once. */
  lemma SanitizeIdempotent(typed: string)
    ensures SanitizePostcode(SanitizePostcode(typed)) == SanitizePostcode(typed)
  {
    KeepDigitsFixesDigits(SanitizePostcode(typed));
  }

  /** The sanitised postcode passes the validator exactly when at least four digits were typed. */
  lemma SanitizedPostcodeValidIff(typed: string)
    ensures ValidatePostcode(SanitizePostcode(typed)).None? <==> |KeepDigits(typed)| >= 4
  {
  }

  /** A valid postcode survives the sanitiser unchanged. */
  lemma SanitizeKeepsValidPostcode(pc: string)
    requires IsFourDigits(pc)
    ensures SanitizePostcode(pc) == pc
  {
    KeepDigitsFixesDigits(pc);
  }

  /**
   * One keystroke at the end of a sanitised field: a digit is appended while
   * there is room, anything else leaves the field as it was.
   */
  lemma Keystroke(field: string, c: char)
    requires |field| <= 4 && AllDigits(field)
    ensures IsDigit(c) && |field| < 4 ==> SanitizePostcode(field + [c]) == field + [c]
    ensures !IsDigit(c) || |field| == 4 ==> SanitizePostcode(field + [c]) == field
  {
    KeepDigitsAppend(field, [c]);
    KeepDigitsFixesDigits(field);
    assert [c][1..] == [];
    assert KeepDigits([c]) == (if IsDigit(c) then [c] else []);
    if IsDigit(c) && |field| == 4 {
      assert (field + [c])[..4] == field;
    }
  }

  /** Every accepted state code is already upper-case, so `toUpperCase` leaves it as it is. */
  lemma KnownStateIsUpperCase(st: string)
    requires ValidateState(st).None?
    ensures UpperStr(st) == st
  {
    assert forall s :: s in States ==> NoLower(s);
    UpperStrFixesUppercase(st);
  }

  /** The variables of the verification query. */
  datatype VerifyVars = VerifyVars(postcode: string, suburb: string, state: string)

  /** The form's React state: three inputs and their error messages. */
  class VerifyForm {
    var postcode: string
    var suburb: string
    var state: string
    var postcodeError: Option<string>
    var suburbError: Option<string>
    var stateError: Option<string>

    /** What the change handlers guarantee: a postcode of at most four digits and an upper-case state. */
    ghost predicate Valid()
      reads this
    {
      |postcode| <= 4 && AllDigits(postcode) && NoLower(state)
    }

    /** On a form the change handlers have kept valid, one more keystroke at the end of the postcode
      * appends a digit while there is room and is otherwise dropped by the sanitiser. */
    lemma KeystrokeOnStoredPostcode(c: char)
      requires Valid()
      ensures IsDigit(c) && |postcode| < 4 ==> SanitizePostcode(postcode + [c]) == postcode + [c]
      ensures !IsDigit(c) || |postcode| == 4 ==> SanitizePostcode(postcode + [c]) == postcode
    {
      Keystroke(postcode, c);
    }

    constructor ()
      ensures Valid()
      ensures postcode == "" && suburb == "" && state == ""
      ensures postcodeError.None? && suburbError.None? && stateError.None?
    {
      postcode, suburb, state := "", "", "";
      postcodeError, suburbError, stateError := None, None, None;
    }

    /** Postcode `onChange`: store the sanitised text; re-validate only if an error is showing. */
    method OnPostcodeChange(typed: string)
      modifies this
      ensures postcode == SanitizePostcode(typed)
      ensures postcodeError == if old(postcodeError).Some? then ValidatePostcode(postcode) else None
      ensures suburb == old(suburb) && state == old(state)
      ensures suburbError == old(suburbError) && stateError == old(stateError)
      ensures old(Valid()) ==> Valid()
    {
      var v := SanitizePostcode(typed);
      postcode := v;
      if postcodeError.Some? {
        postcodeError := ValidatePostcode(v);
      }
    }

    /** Postcode `onBlur`: show the validator's verdict. */
    method OnPostcodeBlur()
      modifies this`postcodeError
      ensures postcodeError == ValidatePostcode(postcode)
    {
      postcodeError := ValidatePostcode(postcode);
    }

    /** Suburb `onChange`: store the text as typed; re-validate only if an error is showing. */
    method OnSuburbChange(typed: string)
      modifies this
      ensures suburb == typed
      ensures suburbError == if old(suburbError).Some? then ValidateSuburb(typed) else None
      ensures postcode == old(postcode) && state == old(state)
      ensures postcodeError == old(postcodeError) && stateError == old(stateError)
      ensures old(Valid()) ==> Valid()
    {
      suburb := typed;
      if suburbError.Some? {
        suburbError := ValidateSuburb(typed);
      }
    }

    /** Suburb `onBlur`: show the validator's verdict. */
    method OnSuburbBlur()
      modifies this`suburbError
      ensures suburbError == ValidateSuburb(suburb)
    {
      suburbError := ValidateSuburb(suburb);
    }

    /** State `onChange`: store the selection upper-cased; re-validate only if an error is showing. */
    method OnStateChange(selected: string)
      modifies this
      ensures state == UpperStr(selected)
      ensures stateError == if old(stateError).Some? then ValidateState(state) else None
      ensures postcode == old(postcode) && suburb == old(suburb)
      ensures postcodeError == old(postcodeError) && suburbError == old(suburbError)
      ensures old(Valid()) ==> Valid()
    {
      var v := UpperStr(selected);
      state := v;
      if stateError.Some? {
        stateError := ValidateState(v);
      }
    }

    /** State `onBlur`: show the validator's verdict. */
    method OnStateBlur()
      modifies this`stateError
      ensures stateError == ValidateState(state)
    {
      stateError := ValidateState(state);
    }

    /**
     * onSubmit: every error field is set from its validator, and the query
     * is issued, with the state upper-cased, exactly when all three are null.
     */
    method OnSubmit() returns (query: Option<VerifyVars>)
      modifies this`postcodeError, this`suburbError, this`stateError
      ensures postcodeError == ValidatePostcode(postcode)
      ensures suburbError == ValidateSuburb(suburb)
      ensures stateError == ValidateState(state)
      ensures query.Some? <==> IsFormValid(postcode, suburb, state)
      ensures query.Some? ==> query.value == VerifyVars(postcode, suburb, UpperStr(state))
      ensures query.Some? ==> query.value.state == state
    {
      var pcErr := ValidatePostcode(postcode);
      var sbErr := ValidateSuburb(suburb);
      var stErr := ValidateState(state);
      postcodeError := pcErr;
      suburbError := sbErr;
      stateError := stErr;
      if pcErr.Some? || sbErr.Some? || stErr.Some? {
        return None;
      }
      KnownStateIsUpperCase(state);
      query := Some(VerifyVars(postcode, suburb, UpperStr(state)));
    }
  }
}
