/**
 * The `verifyAddress` resolver: a lookup by postcode and an exact-match
 * search; on a miss, a lookup by the normalised suburb tells "suburb not in
 * state" apart from "postcode does not match suburb"; any thrown error
 * becomes a failed verdict. An audit entry mirrors the verdict.
 *
 * `Verdict` and `Respond` define the outcome; `VerifyAddress` computes it
 * step by step as the resolver does and is proved to agree with them.
 * The two directory requests are two separate oracles: `first` answers the
 * request by postcode and `second` the request by suburb, so the second may
 * answer differently from the first even when both ask the same terms.
 */
module Resolver {
  import opened Wrappers
  import opened Text
  import opened Suburb
  import opened Wire

  /** The three query arguments, already strings. */
  datatype Args = Args(postcode: string, suburb: string, state: string)

  /** The `VerifyResult` GraphQL object; absent coordinates are `undefined`. */
  datatype VerifyResult = VerifyResult(
    success: bool,
    message: string,
    latitude: Option<Js>,
    longitude: Option<Js>)

  /** The document handed to the audit log. */
  datatype AuditEntry = AuditEntry(
    user: string,
    postcode: string,
    suburb: string,
    state: string,
    timestamp: string,
    success: bool,
    error: Option<string>)

  /** What the resolver produces: a `BAD_USER_INPUT` GraphQL error, or a verdict and its audit entry. */
  datatype Response =
    | BadUserInput(message: string)
    | Answer(result: VerifyResult, audit: AuditEntry)

  const RequiredMessage := "Postcode, Suburb, and State are required."
  const ValidMessage := "The postcode, suburb, and state input are valid."
  const FailurePrefix := "Australia Post request failed: "
  const Anonymous := "anonymous"

  /** The message of a thrown lookup: the fixed prefix, then the error's message or "Unknown error". */
  function FailureMessage(e: Thrown): (m: string)
    ensures |FailurePrefix| <= |m| && m[..|FailurePrefix|] == FailurePrefix
    ensures m[|FailurePrefix|..] == if e.ErrorObject? then e.message else "Unknown error"
  {
    FailurePrefix + (if e.ErrorObject? then e.message else "Unknown error")
  }

  function NotInStateMessage(suburb: string, state: string): string {
    "The suburb " + suburb + " does not exist in the state " + state + "."
  }

  function MismatchMessage(postcode: string, suburb: string): string {
    "The postcode " + postcode + " does not match the suburb " + suburb + "."
  }

  function Failed(message: string): VerifyResult {
    VerifyResult(false, message, None, None)
  }

  /** The record's postcode as a string, or the queried postcode when the record has none. */
  function RecordPostcode(x: Locality, postcode: string): string {
    if Truthy(x.postcode) then ToStr(x.postcode) else postcode
  }

  /**
   * The exact-match test of the first lookup. The record's state is
   * normalised but compared with the caller's `state` as given.
   */
  predicate IsHit(x: Locality, postcode: string, state: string, target: string) {
    && RecordPostcode(x, postcode) == postcode
    && NormalizeSuburb(x.state) == state
    && NormalizeSuburb(x.location) == target
  }

  /** The existence test of the fallback lookup (postcode ignored). */
  predicate InState(x: Locality, state: string, target: string) {
    NormalizeSuburb(x.location) == target && NormalizeSuburb(x.state) == state
  }

  /** The callback passed to `byPostcode.find`. */
  function HitTest(a: Args): Locality -> bool {
    (x: Locality) => IsHit(x, a.postcode, a.state, NormalizeSuburb(a.suburb))
  }

  /** `byPostcode.find(...)`, as an index. */
  function FirstHit(list: seq<Locality>, a: Args): Option<nat> {
    FirstIndex(list, HitTest(a))
  }

  /** `bySuburb.some(...)`. */
  predicate SuburbInState(list: seq<Locality>, a: Args) {
    exists i :: 0 <= i < |list| && InState(list[i], a.state, NormalizeSuburb(a.suburb))
  }

  /** The verdict for arguments that passed the emptiness check. */
  function Verdict(a: Args, first: Lookup, second: Lookup): VerifyResult {
    match first(a.postcode, a.state)
    case Err(e) => Failed(FailureMessage(e))
    case Ok(byPostcode) =>
      match FirstHit(byPostcode, a)
      case Some(k) =>
        var hit := byPostcode[k];
        if hit.latitude.Some? && hit.longitude.Some? then
          VerifyResult(true, ValidMessage, hit.latitude, hit.longitude)
        else
          VerifyResult(true, ValidMessage, None, None)
      case None =>
        match second(NormalizeSuburb(a.suburb), a.state)
        case Err(e) => Failed(FailureMessage(e))
        case Ok(bySuburb) =>
          if SuburbInState(bySuburb, a) then Failed(MismatchMessage(a.postcode, a.suburb))
          else Failed(NotInStateMessage(a.suburb, a.state))
  }

  /** The audit document for a verdict; `userEmail` comes from the session cookie, if any. */
  function Audit(a: Args, userEmail: Option<string>, timestamp: string, v: VerifyResult): AuditEntry {
    AuditEntry(
      if userEmail.Some? && userEmail.value != "" then userEmail.value else Anonymous,
      a.postcode, a.suburb, a.state, timestamp,
      v.success,
      if v.success then None else Some(v.message))
  }

  /** The whole resolver outcome. */
  function Respond(a: Args, userEmail: Option<string>, timestamp: string, first: Lookup, second: Lookup): Response {
    if a.postcode == "" || a.suburb == "" || a.state == "" then BadUserInput(RequiredMessage)
    else
      var v := Verdict(a, first, second);
      Answer(v, Audit(a, userEmail, timestamp, v))
  }

  /** `byPostcode.find(...)`: scans for the first exact match. */
  method FindHit(list: seq<Locality>, a: Args) returns (k: Option<nat>)
    ensures k == FirstHit(list, a)
  {
    var isHit := HitTest(a);
    var i := 0;
    while i < |list| && !isHit(list[i])
      invariant 0 <= i <= |list|
      invariant forall j :: 0 <= j < i ==> !isHit(list[j])
    {
      i := i + 1;
    }
    FirstIndexIsScanResult(list, isHit, i);
    k := if i < |list| then Some(i) else None;
  }

  /** `bySuburb.some(...)`: scans until a record has the suburb in the state. */
  method AnyInState(list: seq<Locality>, a: Args) returns (found: bool)
    ensures found == SuburbInState(list, a)
  {
    var target := NormalizeSuburb(a.suburb);
    found := false;
    var j := 0;
    while j < |list| && !found
      invariant 0 <= j <= |list|
      invariant found <==> exists k :: 0 <= k < j && InState(list[k], a.state, target)
    {
      found := InState(list[j], a.state, target);
      j := j + 1;
    }
  }

  /**
   * verifyAddress, step by step: `success`, `message`, `latitude` and
   * `longitude` start empty and are reassigned across the hit, fallback and
   * failure branches; the audit entry is built last.
   */
  method VerifyAddress(a: Args, userEmail: Option<string>, timestamp: string, first: Lookup, second: Lookup)
    returns (r: Response)
    ensures r == Respond(a, userEmail, timestamp, first, second)
  {
    if a.postcode == "" || a.suburb == "" || a.state == "" {
      return BadUserInput(RequiredMessage);
    }
    var success := false;
    var message := "";
    var latitude: Option<Js> := None;
    var longitude: Option<Js> := None;

    var byPostcode := first(a.postcode, a.state);
    if byPostcode.Err? {
      message := FailureMessage(byPostcode.error);
    } else {
      var hit := FindHit(byPostcode.value, a);
      if hit.Some? {
        var x := byPostcode.value[hit.value];
        success := true;
        message := ValidMessage;
        if x.latitude.Some? && x.longitude.Some? {
          latitude := x.latitude;
          longitude := x.longitude;
        }
      } else {
        var bySuburb := second(NormalizeSuburb(a.suburb), a.state);
        if bySuburb.Err? {
          message := FailureMessage(bySuburb.error);
        } else {
          var suburbInState := AnyInState(bySuburb.value, a);
          if !suburbInState {
            message := NotInStateMessage(a.suburb, a.state);
          } else {
            message := MismatchMessage(a.postcode, a.suburb);
          }
        }
      }
    }
    var result := VerifyResult(success, message, latitude, longitude);
    r := Answer(result, Audit(a, userEmail, timestamp, result));
  }

  // ---- properties of the verdict ----

  /**
   * Success holds exactly when the postcode lookup answers and one of its
   * records is an exact match; the message is then the fixed "valid" text.
   */
  lemma SuccessIffExactMatch(a: Args, first: Lookup, second: Lookup)
    ensures var byPostcode := first(a.postcode, a.state);
      Verdict(a, first, second).success <==>
        && byPostcode.Ok?
        && (exists i :: 0 <= i < |byPostcode.value| &&
              IsHit(byPostcode.value[i], a.postcode, a.state, NormalizeSuburb(a.suburb)))
    ensures Verdict(a, first, second).success ==> Verdict(a, first, second).message == ValidMessage
    ensures Verdict(a, first, second).message == ValidMessage ==> Verdict(a, first, second).success
  {
    var byPostcode := first(a.postcode, a.state);
    if byPostcode.Err? {
      ValidMessageIsNoFailure(byPostcode.error);
    } else if FirstHit(byPostcode.value, a).None? {
      var bySuburb := second(NormalizeSuburb(a.suburb), a.state);
      if bySuburb.Err? {
        ValidMessageIsNoFailure(bySuburb.error);
      } else {
        ValidMessageIsNoMismatch(a);
      }
    }
  }

  lemma ValidMessageStart()
    ensures ValidMessage[0] == 'T' && ValidMessage[4] == 'p' && ValidMessage[12] == ','
  {
    var v := ValidMessage;
    assert v == "The postcode," + v[13..];
  }

  /** The "valid" text is never a failure message: they differ in their first character. */
  lemma ValidMessageIsNoFailure(e: Thrown)
    ensures FailureMessage(e) != ValidMessage
  {
    ValidMessageStart();
    assert FailureMessage(e)[0] == 'A';
  }

  /** Nor is it either of the two fallback messages. */
  lemma ValidMessageIsNoMismatch(a: Args)
    ensures NotInStateMessage(a.suburb, a.state) != ValidMessage
    ensures MismatchMessage(a.postcode, a.suburb) != ValidMessage
  {
    ValidMessageStart();
    assert NotInStateMessage(a.suburb, a.state)[4] == 's';
    assert MismatchMessage(a.postcode, a.suburb)[12] == ' ';
  }

  /** Coordinates come only with a hit, and always as a pair taken from the first hit. */
  lemma CoordinatesOnlyOnHit(a: Args, first: Lookup, second: Lookup)
    ensures var v := Verdict(a, first, second); v.latitude.Some? <==> v.longitude.Some?
    ensures var v := Verdict(a, first, second); v.latitude.Some? ==> v.success
    ensures var byPostcode := first(a.postcode, a.state);
      var v := Verdict(a, first, second);
      v.success ==>
        var hit := byPostcode.value[FirstHit(byPostcode.value, a).value];
        (v.latitude.Some? <==> hit.latitude.Some? && hit.longitude.Some?)
        && (v.latitude.Some? ==> v.latitude == hit.latitude && v.longitude == hit.longitude)
  {
  }

  /**
   * With no hit, the verdict is a failure decided by the fallback lookup:
   * "does not exist in the state" when no record there has the suburb in the
   * state, "does not match the suburb" otherwise.
   */
  lemma FallbackVerdict(a: Args, first: Lookup, second: Lookup)
    requires first(a.postcode, a.state).Ok?
    requires forall i :: 0 <= i < |first(a.postcode, a.state).value| ==>
      !IsHit(first(a.postcode, a.state).value[i], a.postcode, a.state, NormalizeSuburb(a.suburb))
    ensures !Verdict(a, first, second).success
    ensures Verdict(a, first, second).latitude.None? && Verdict(a, first, second).longitude.None?
    ensures var bySuburb := second(NormalizeSuburb(a.suburb), a.state);
      bySuburb.Err? ==> Verdict(a, first, second).message == FailureMessage(bySuburb.error)
    ensures var bySuburb := second(NormalizeSuburb(a.suburb), a.state);
      bySuburb.Ok? ==>
        (Verdict(a, first, second).message == NotInStateMessage(a.suburb, a.state) <==>
           forall i :: 0 <= i < |bySuburb.value| ==> !InState(bySuburb.value[i], a.state, NormalizeSuburb(a.suburb)))
    ensures var bySuburb := second(NormalizeSuburb(a.suburb), a.state);
      bySuburb.Ok? ==>
        (Verdict(a, first, second).message == MismatchMessage(a.postcode, a.suburb) <==>
           exists i :: 0 <= i < |bySuburb.value| && InState(bySuburb.value[i], a.state, NormalizeSuburb(a.suburb)))
  {
    var bySuburb := second(NormalizeSuburb(a.suburb), a.state);
    if bySuburb.Ok? {
      NotInStateDiffersFromMismatch(a);
    }
  }

  lemma NotInStateDiffersFromMismatch(a: Args)
    ensures NotInStateMessage(a.suburb, a.state) != MismatchMessage(a.postcode, a.suburb)
  {
    var m := NotInStateMessage(a.suburb, a.state);
    assert m[4] == 's';
    assert MismatchMessage(a.postcode, a.suburb)[4] == 'p';
  }

  /**
   * If a lookup that is reached throws, the verdict is a failure without
   * coordinates whose message is the fixed prefix followed by the cause
   * taken from what that lookup threw.
   */
  lemma LookupFailureVerdict(a: Args, first: Lookup, second: Lookup)
    requires first(a.postcode, a.state).Err?
      || (first(a.postcode, a.state).Ok?
          && FirstHit(first(a.postcode, a.state).value, a).None?
          && second(NormalizeSuburb(a.suburb), a.state).Err?)
    ensures !Verdict(a, first, second).success
    ensures StartsWith(Verdict(a, first, second).message, FailurePrefix)
    ensures first(a.postcode, a.state).Err? ==>
      Verdict(a, first, second).message == FailureMessage(first(a.postcode, a.state).error)
    ensures first(a.postcode, a.state).Ok? ==>
      Verdict(a, first, second).message == FailureMessage(second(NormalizeSuburb(a.suburb), a.state).error)
    ensures Verdict(a, first, second).latitude.None? && Verdict(a, first, second).longitude.None?
  {
  }

  /**
   * The two requests are independent: a first request that answers without a
   * hit may be followed by a second that throws, even when the suburb is the
   * same text as the postcode, and the verdict then reports the second
   * request's failure.
   */
  lemma SecondRequestMayFailAlone(first: Lookup, second: Lookup)
    requires forall q, st :: first(q, st) == Ok([])
    requires forall q, st :: second(q, st) == Err(OtherValue)
    ensures Verdict(Args("3000", "3000", "VIC"), first, second) == Failed(FailurePrefix + "Unknown error")
  {
  }

  /**
   * The fallback lookup is consulted only on a miss: when the postcode
   * lookup throws or finds a hit, what the suburb lookup would answer makes
   * no difference.
   */
  lemma FallbackOnlyOnMiss(a: Args, first: Lookup, second1: Lookup, second2: Lookup)
    requires first(a.postcode, a.state).Err? || FirstHit(first(a.postcode, a.state).value, a).Some?
    ensures Verdict(a, first, second1) == Verdict(a, first, second2)
  {
  }

  /**
   * An empty argument is rejected before any lookup, with the fixed message
   * and without an audit entry; otherwise the audit entry echoes the
   * arguments, names the session's email or "anonymous" when there is none,
   * and carries an error exactly on failure.
   */
  lemma ResponseAndAudit(a: Args, userEmail: Option<string>, timestamp: string, first: Lookup, second: Lookup)
    ensures var r := Respond(a, userEmail, timestamp, first, second);
      r.BadUserInput? <==> a.postcode == "" || a.suburb == "" || a.state == ""
    ensures var r := Respond(a, userEmail, timestamp, first, second);
      r.BadUserInput? ==> r.message == RequiredMessage
    ensures var r := Respond(a, userEmail, timestamp, first, second);
      r.Answer? ==>
        && r.result == Verdict(a, first, second)
        && r.audit.success == r.result.success
        && (r.audit.error.None? <==> r.result.success)
        && (r.audit.error.Some? ==> r.audit.error.value == r.result.message)
        && (userEmail.Some? && userEmail.value != "" ==> r.audit.user == userEmail.value)
        && (userEmail.None? || userEmail.value == "" ==> r.audit.user == Anonymous)
        && r.audit.postcode == a.postcode && r.audit.suburb == a.suburb && r.audit.state == a.state
        && r.audit.timestamp == timestamp
  {
  }

  // ---- consequences of the source's quirks ----

  /**
   * The record state is normalised but the caller's state is not: a state
   * argument holding a lower-case letter never verifies, and when both
   * lookups answer the verdict always claims the suburb is not in that state.
   */
  lemma LowercaseStateNeverVerifies(a: Args, first: Lookup, second: Lookup, k: nat)
    requires k < |a.state| && IsLower(a.state[k])
    ensures !Verdict(a, first, second).success
    ensures first(a.postcode, a.state).Ok? && second(NormalizeSuburb(a.suburb), a.state).Ok? ==>
      Verdict(a, first, second).message == NotInStateMessage(a.suburb, a.state)
  {
  }

  /** A record without a postcode matches whatever postcode was asked for. */
  lemma MissingPostcodeMatchesAnyQuery(x: Locality, postcode: string, state: string, target: string)
    requires !Truthy(x.postcode)
    ensures IsHit(x, postcode, state, target) <==> InState(x, state, target)
  {
  }

  /** A hit on a record whose wire latitude was numeric zero verifies without coordinates. */
  lemma ZeroLatitudeHitHasNoCoordinates(a: Args, first: Lookup, second: Lookup, wire: Js)
    requires wire.Obj? && "latitude" in wire.fields && wire.fields["latitude"] == Num("0")
    requires first(a.postcode, a.state) == Ok([NormalizeRecord(wire)])
    requires IsHit(NormalizeRecord(wire), a.postcode, a.state, NormalizeSuburb(a.suburb))
    ensures Verdict(a, first, second).success
    ensures Verdict(a, first, second).latitude.None? && Verdict(a, first, second).longitude.None?
  {
    ZeroLatitudeIsDropped(wire);
    assert FirstHit([NormalizeRecord(wire)], a) == Some(0);
  }

  // ---- end to end, through callAusPost ----

  /** A directory record for Melbourne, as the locality search sends it. */
  const MelbourneRecord: Js :=
    Obj(map["postcode" := Num("3000"), "location" := Str("Melbourne"), "state" := Str("VIC"),
            "latitude" := Num("-37.8136"), "longitude" := Num("144.9631")])

  /** The record normalises to upper-case names with both coordinates kept. */
  lemma MelbourneRecordNormalized()
    ensures NormalizeRecord(MelbourneRecord) ==
      Locality(Num("3000"), "MELBOURNE", "VIC", Some(Num("-37.8136")), Some(Num("144.9631")))
  {
    var x := MelbourneRecord;
    assert Get(x, "suburb") == Undefined && Get(x, "location") == Str("Melbourne");
    assert Get(x, "postcode") == Num("3000") && Get(x, "state") == Str("VIC");
    UpperMelbourne();
    UpperStrFixesUppercase("VIC");
  }

  /** "VIC" is already in normal form. */
  lemma VicIsNormalized()
    ensures NormalizeSuburb("VIC") == "VIC"
  {
    var s := "VIC";
    assert NoEdgeWhitespace(s);
    assert forall i :: 0 <= i < |s| ==> !IsWhitespace(s[i]) && !IsLower(s[i]);
    NormalizedIsFixed(s);
  }

  /** "MELBOURNE" is already in normal form. */
  lemma MelbourneIsNormalized()
    ensures NormalizeSuburb("MELBOURNE") == "MELBOURNE"
  {
    var s := "MELBOURNE";
    assert NoEdgeWhitespace(s);
    assert forall i :: 0 <= i < |s| ==> !IsWhitespace(s[i]) && !IsLower(s[i]);
    NormalizedIsFixed(s);
  }

  /** "Melbourne" has no whitespace, so normalising only upper-cases it. */
  lemma MelbourneUpperCased()
    ensures NormalizeSuburb("Melbourne") == "MELBOURNE"
  {
    MelbourneHasNoWhitespace();
    NoWhitespaceIsUpperCased("Melbourne");
    UpperMelbourne();
  }

  lemma MelbourneHasNoWhitespace()
    ensures forall i :: 0 <= i < |"Melbourne"| ==> !IsWhitespace("Melbourne"[i])
  {
  }

  lemma UpperMelbourne()
    ensures UpperStr("Melbourne") == "MELBOURNE"
  {
    var u := UpperStr("Melbourne");
    assert u[0] == 'M' && u[1] == 'E' && u[2] == 'L' && u[3] == 'B' && u[4] == 'O';
    assert u[5] == 'U' && u[6] == 'R' && u[7] == 'N' && u[8] == 'E';
  }

  /** The postcode request, answered with the Melbourne record, yields its normalised form. */
  lemma MelbourneLookup(dir: Directory)
    requires dir("3000", "VIC") == Body(Envelope(Arr([MelbourneRecord])))
    ensures AusPostLookup(dir)("3000", "VIC") ==
      Ok([Locality(Num("3000"), "MELBOURNE", "VIC", Some(Num("-37.8136")), Some(Num("144.9631")))])
  {
    MelbourneRecordNormalized();
    ListPayloadKeepsOrder([MelbourneRecord]);
    var shaped := ShapeResponse(Envelope(Arr([MelbourneRecord])));
    assert shaped.value == [NormalizeRecord(MelbourneRecord)];
  }

  /** The normalised Melbourne record is an exact match for 3000 / Melbourne / VIC. */
  lemma MelbourneIsHit()
    ensures IsHit(Locality(Num("3000"), "MELBOURNE", "VIC", Some(Num("-37.8136")), Some(Num("144.9631"))),
                  "3000", "VIC", NormalizeSuburb("Melbourne"))
  {
    VicIsNormalized();
    MelbourneIsNormalized();
    MelbourneUpperCased();
  }

  /**
   * 3000 / Melbourne / VIC verifies, with the record's coordinates, when the
   * postcode request returns that record through callAusPost, whatever the
   * suburb request would say.
   */
  lemma MelbourneVerifies(dir1: Directory, dir2: Directory)
    requires dir1("3000", "VIC") == Body(Envelope(Arr([MelbourneRecord])))
    ensures var v := Verdict(Args("3000", "Melbourne", "VIC"), AusPostLookup(dir1), AusPostLookup(dir2));
      v == VerifyResult(true, ValidMessage, Some(Num("-37.8136")), Some(Num("144.9631")))
  {
    var a := Args("3000", "Melbourne", "VIC");
    var rec := Locality(Num("3000"), "MELBOURNE", "VIC", Some(Num("-37.8136")), Some(Num("144.9631")));
    MelbourneLookup(dir1);
    MelbourneIsHit();
    FirstIndexIsScanResult([rec], HitTest(a), 0);
  }
}
