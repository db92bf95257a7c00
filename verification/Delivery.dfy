// Outbound webhook delivery: a retry loop with exponential backoff that commits its log row when it starts
// and when it ends.
module Delivery {
  import opened Basics
  import opened Decimals

  datatype Response = Answered(code: nat, text: string) | Failed(error: string)

  datatype Status = Forwarded | GivenUp

  datatype OutboundLog = OutboundLog(status: Status, attempts: nat, responseCode: Option<nat>, error: Option<string>)

  predicate Success(r: Response) {
    r.Answered? && 200 <= r.code < 300
  }

  function ErrorText(r: Response): string {
    match r
    case Answered(code, text) => "HTTP " + Decimal(code) + ": " + if |text| > 200 then text[..200] else text
    case Failed(error) => error
  }

  // The error is the exception's own text, or names the code and at most 200 characters of the answer.
  ghost predicate Tells(error: string, r: Response) {
    match r
    case Failed(text) => error == text
    case Answered(code, text) =>
      exists n :: 0 <= n <= |text| && (n == 200 || (n < 200 && n == |text|))
                  && error == "HTTP " + Decimal(code) + ": " + text[..n]
  }

  lemma ErrorTells(r: Response)
    ensures Tells(ErrorText(r), r)
  {
    if r.Answered? {
      var n := if |r.text| > 200 then 200 else |r.text|;
      assert r.text[..|r.text|] == r.text;
      assert ErrorText(r) == "HTTP " + Decimal(r.code) + ": " + r.text[..n];
    }
  }

  function Pow2(n: nat): nat {
    if n == 0 then 1 else 2 * Pow2(n - 1)
  }

  // The last status code the endpoint answered with, if any.
  function LastCode(rs: seq<Response>): Option<nat> {
    if rs == [] then None
    else if rs[|rs| - 1].Answered? then Some(rs[|rs| - 1].code)
    else LastCode(rs[..|rs| - 1])
  }

  // Exactly: an answer of that code, with only failures to connect after it.
  lemma {:induction false} LastCodeExact(rs: seq<Response>)
    ensures LastCode(rs).None? <==> forall j :: 0 <= j < |rs| ==> rs[j].Failed?
    ensures LastCode(rs).Some? ==>
      exists j :: 0 <= j < |rs| && rs[j].Answered? && rs[j].code == LastCode(rs).value
                  && forall k :: j < k < |rs| ==> rs[k].Failed?
  {
    if rs == [] {
    } else {
      LastCodeExact(rs[..|rs| - 1]);
    }
  }

  // The sleeps 1, 2, 4, ... before attempts 2, 3, 4, ...
  function SleepBefore(attempt: nat): nat {
    if attempt <= 1 then 0 else SleepBefore(attempt - 1) + Pow2(attempt - 2)
  }

  lemma {:induction false} SleepClosedForm(attempt: nat)
    requires attempt >= 1
    ensures SleepBefore(attempt) == Pow2(attempt - 1) - 1
  {
    if attempt == 1 {
    } else {
      SleepClosedForm(attempt - 1);
    }
  }

  lemma SleepStep(attempt: nat)
    requires attempt >= 1
    ensures SleepBefore(attempt + 1) == SleepBefore(attempt) + Pow2(attempt - 1)
  {
  }

  lemma GaveUp(maxRetries: nat)
    ensures SleepBefore(maxRetries) == if maxRetries >= 1 then Pow2(maxRetries - 1) - 1 else 0
  {
    if maxRetries >= 1 {
      SleepClosedForm(maxRetries);
    }
  }

  lemma NothingYet(rs: seq<Response>, maxRetries: nat)
    ensures SleepBefore(if 1 <= maxRetries then 1 else maxRetries) == 0 && LastCode(rs[..0]) == None
  {
  }

  lemma LastCodeStep(rs: seq<Response>, n: nat)
    requires 1 <= n <= |rs|
    ensures LastCode(rs[..n]) == if rs[n - 1].Answered? then Some(rs[n - 1].code) else LastCode(rs[..n - 1])
  {
    assert rs[..n][..n - 1] == rs[..n - 1];
  }

  // range(1, n + 1) is empty for a setting of zero or less.
  function Budget(setting: int): nat {
    if setting > 0 then setting else 0
  }

  const STARTED := OutboundLog(Forwarded, 0, None, None)

  // What a crash may leave in the database at any moment after the row exists, given all the answers.
  ghost predicate CrashState(row: OutboundLog, responses: seq<Response>, maxRetries: nat) {
    || row == STARTED
    || (row.status == Forwarded && 1 <= row.attempts <= maxRetries && row.attempts <= |responses|
        && Success(responses[row.attempts - 1])
        && forall j :: 0 <= j < row.attempts - 1 ==> !Success(responses[j]))
    || (row.status == GivenUp && row.attempts == maxRetries <= |responses|
        && forall j :: 0 <= j < maxRetries ==> !Success(responses[j]))
  }

  lemma StartedIsCrashState(responses: seq<Response>, maxRetries: nat)
    ensures CrashState(STARTED, responses, maxRetries)
  {
  }

  lemma EndIsCrashState(row: OutboundLog, responses: seq<Response>, maxRetries: nat)
    requires row.attempts <= maxRetries <= |responses|
    requires row.status == Forwarded ==>
      && row.attempts >= 1 && Success(responses[row.attempts - 1])
      && forall j :: 0 <= j < row.attempts - 1 ==> !Success(responses[j])
    requires row.status == GivenUp ==>
      row.attempts == maxRetries && forall j :: 0 <= j < maxRetries ==> !Success(responses[j])
    ensures CrashState(row, responses, maxRetries)
  {
  }

  // Some attempt within the budget reaches the tenant.
  ghost predicate Reaches(responses: seq<Response>, maxRetries: nat)
    requires |responses| >= maxRetries
  {
    exists k :: 0 <= k < maxRetries && Success(responses[k])
  }

  lemma SuccessIs2xx(r: Response)
    ensures Success(r) <==> r.Answered? && 200 <= r.code <= 299
  {
  }

  lemma ReachesBy2xx(responses: seq<Response>, setting: int)
    requires |responses| >= Budget(setting)
    ensures Reaches(responses, Budget(setting)) <==>
            exists k :: 0 <= k < setting && responses[k].Answered? && 200 <= responses[k].code <= 299
  {
    if Reaches(responses, Budget(setting)) {
      var k :| 0 <= k < Budget(setting) && Success(responses[k]);
      assert responses[k].Answered?;
    }
  }

  class Dispatcher {
    var row: OutboundLog
    // Every value of the row that was committed, oldest first.
    var committed: seq<OutboundLog>
    var posts: nat
    var slept: nat

    constructor ()
      ensures row == STARTED && committed == [] && posts == 0 && slept == 0
    {
      row := STARTED;
      committed := [];
      posts, slept := 0, 0;
    }

    method Commit()
      modifies this`committed
      ensures committed == old(committed) + [row]
    {
      committed := committed + [row];
    }

    // responses[k] is what attempt k + 1 would get.
    method Dispatch(setting: int, responses: seq<Response>) returns (delivered: bool)
      requires row == STARTED && committed == [] && posts == 0 && slept == 0
      requires |responses| >= Budget(setting)
      modifies this
      ensures posts == row.attempts && (posts == 0 || posts <= setting)
      ensures committed == [STARTED, row]
      ensures forall k :: 0 <= k < |committed| ==> CrashState(committed[k], responses, Budget(setting))
      ensures delivered <==>
        exists k :: 0 <= k < setting && responses[k].Answered? && 200 <= responses[k].code <= 299
      ensures delivered ==>
        && row.status == Forwarded && 1 <= posts && row.error == None
        && responses[posts - 1].Answered? && row.responseCode == Some(responses[posts - 1].code)
        && 200 <= responses[posts - 1].code <= 299
        && (forall j :: 0 <= j < posts - 1 ==> !Success(responses[j]))
        && slept == Pow2(posts - 1) - 1
      ensures !delivered ==>
        var n := if setting > 0 then setting else 0;
        && row.status == GivenUp && posts == n
        && row.responseCode == LastCode(responses[..n])
        && (n >= 1 ==> row.error.Some? && Tells(row.error.value, responses[n - 1]))
        && slept == if n >= 1 then Pow2(n - 1) - 1 else 0
    {
      hide Success, LastCode, ErrorText, Tells, Pow2, SleepBefore, CrashState;
      StartedIsCrashState(responses, Budget(setting));
      ReachesBy2xx(responses, setting);
      var maxRetries := Budget(setting);
      Commit();
      assert slept == SleepBefore(if 1 <= maxRetries then 1 else maxRetries)
             && row.responseCode == LastCode(responses[..0]) by {
        NothingYet(responses, maxRetries);
      }
      for attempt := 1 to maxRetries + 1
        invariant committed == [STARTED] && row.status == Forwarded
        invariant posts == row.attempts == attempt - 1
        invariant forall j :: 0 <= j < attempt - 1 ==> !Success(responses[j])
        invariant row.responseCode == LastCode(responses[..attempt - 1])
        invariant attempt > 1 ==> row.error == Some(ErrorText(responses[attempt - 2]))
        invariant slept == SleepBefore(if attempt <= maxRetries then attempt else maxRetries)
      {
        row := row.(attempts := attempt);
        posts := posts + 1;
        var response := responses[attempt - 1];
        SuccessIs2xx(response);
        LastCodeStep(responses, attempt);
        SleepStep(attempt);
        SleepClosedForm(attempt);
        if response.Answered? {
          row := row.(responseCode := Some(response.code));
          if 200 <= response.code < 300 {
            row := row.(status := Forwarded);
            row := row.(error := None);
            Commit();
            EndIsCrashState(row, responses, maxRetries);
            return true;
          }
        }
        row := row.(error := Some(ErrorText(response)));
        if attempt < maxRetries {
          slept := slept + Pow2(attempt - 1);
        }
      }
      row := row.(status := GivenUp);
      Commit();
      if maxRetries >= 1 {
        ErrorTells(responses[maxRetries - 1]);
      }
      GaveUp(maxRetries);
      EndIsCrashState(row, responses, maxRetries);
      return false;
    }
  }

  ghost predicate LeadsTo(responses: seq<Response>, row: OutboundLog, maxRetries: nat) {
    |responses| >= maxRetries && CrashState(row, responses, maxRetries)
  }

  // Whatever answers may have led to the row, they agree on whether the tenant gets the event.
  ghost predicate FixesOutcome(row: OutboundLog, maxRetries: nat) {
    forall a, b | LeadsTo(a, row, maxRetries) && LeadsTo(b, row, maxRetries) ::
      Reaches(a, maxRetries) <==> Reaches(b, maxRetries)
  }

  lemma EndTellsOutcome(row: OutboundLog, responses: seq<Response>, maxRetries: nat)
    requires CrashState(row, responses, maxRetries) && |responses| >= maxRetries && row != STARTED
    ensures Reaches(responses, maxRetries) <==> row.status == Forwarded
  {
    if row.status == Forwarded {
      assert Success(responses[row.attempts - 1]);
    }
  }

  // A committed row tells a reader whether the tenant gets the event if and only if it is not the row the
  // loop starts with: (FORWARDED, 0) is left behind on the way to a delivery and on the way to a failure.
  lemma RowTellsOutcome(row: OutboundLog, maxRetries: nat)
    requires maxRetries >= 1
    ensures FixesOutcome(row, maxRetries) <==> row != STARTED
  {
    if row == STARTED {
      var good := seq(maxRetries, _ => Answered(200, ""));
      var bad := seq(maxRetries, _ => Failed(""));
      assert Success(good[0]) && Reaches(good, maxRetries) && !Reaches(bad, maxRetries);
      assert LeadsTo(good, row, maxRetries) && LeadsTo(bad, row, maxRetries);
    } else {
      forall a, b | LeadsTo(a, row, maxRetries) && LeadsTo(b, row, maxRetries)
        ensures Reaches(a, maxRetries) <==> Reaches(b, maxRetries)
      {
        EndTellsOutcome(row, a, maxRetries);
        EndTellsOutcome(row, b, maxRetries);
      }
    }
  }
}
