// The status vocabulary and the three tables that map PhonePe states onto it.
module StatusMaps {

  datatype Status = Created | Pending | Completed | Failed | Expired | Success

  // What str.upper() makes of one character, exact wherever the result can occur in a table key:
  // the listed non-ASCII characters are those whose upper case is plain ASCII.
  function UpperChar(c: char): string {
    if 'a' <= c <= 'z' then [(c as int - 'a' as int + 'A' as int) as char]
    else if c == '\U{00DF}' then "SS"
    else if c == '\U{0131}' then "I"
    else if c == '\U{017F}' then "S"
    else if c == '\U{FB00}' then "FF"
    else if c == '\U{FB01}' then "FI"
    else if c == '\U{FB02}' then "FL"
    else if c == '\U{FB03}' then "FFI"
    else if c == '\U{FB04}' then "FFL"
    else if c == '\U{FB05}' || c == '\U{FB06}' then "ST"
    else [c]
  }

  function Upper(s: string): string {
    if s == "" then "" else UpperChar(s[0]) + Upper(s[1..])
  }

  const POLL_TABLE: map<string, Status> := map[
    "COMPLETED" := Completed,
    "PAYMENT_SUCCESS" := Completed,
    "SUCCESS" := Completed,
    "FAILED" := Failed,
    "PAYMENT_ERROR" := Failed,
    "PAYMENT_DECLINED" := Failed,
    "TIMED_OUT" := Failed,
    "EXPIRED" := Expired,
    "PENDING" := Pending,
    "PAYMENT_PENDING" := Pending,
    "INITIATED" := Pending
  ]

  const HOOK_TABLE: map<string, Status> := map[
    "PAYMENT_SUCCESS" := Completed,
    "COMPLETED" := Completed,
    "SUCCESS" := Completed,
    "PAYMENT_ERROR" := Failed,
    "PAYMENT_DECLINED" := Failed,
    "FAILED" := Failed,
    "TIMED_OUT" := Failed,
    "EXPIRED" := Expired,
    "PAYMENT_PENDING" := Pending,
    "PENDING" := Pending
  ]

  const REFUND_TABLE: map<string, Status> := map[
    "COMPLETED" := Success,
    "PAYMENT_SUCCESS" := Success,
    "SUCCESS" := Success,
    "FAILED" := Failed,
    "PENDING" := Pending
  ]

  function Lookup(table: map<string, Status>, key: string): Status {
    if key in table then table[key] else Pending
  }

  // The statuses a PhonePe report can give an order.
  predicate Canonical(s: Status) {
    s == Pending || s == Completed || s == Failed || s == Expired
  }

  function PollStatus(state: string): (r: Status)
    ensures Canonical(r)
  {
    Lookup(POLL_TABLE, Upper(state))
  }

  function HookStatus(code: string): (r: Status)
    ensures Canonical(r)
  {
    Lookup(HOOK_TABLE, Upper(code))
  }

  function RefundStatus(state: string): (r: Status)
    ensures r == Pending || r == Success || r == Failed
  {
    Lookup(REFUND_TABLE, Upper(state))
  }

  // How an order status is written on a PAYMENT entry of the ledger.
  function TxStatus(s: Status): Status {
    if s == Completed then Success else s
  }

  // The two tables differ in size, yet poll and webhook read every string alike.
  lemma MapsAgree(state: string)
    ensures PollStatus(state) == HookStatus(state)
  {
  }

  predicate Settled(c: char) {
    UpperChar(c) == [c]
  }

  lemma UpperCharSettles(x: char, c: char)
    requires c in UpperChar(x)
    ensures Settled(c)
  {
    if 'a' <= x <= 'z' {
      assert UpperChar(x)[0] == c;
    } else if !Settled(x) {
      assert 'A' <= c <= 'Z';
    }
  }

  lemma {:induction false} UpperSettles(s: string)
    ensures forall c :: c in Upper(s) ==> Settled(c)
  {
    if s == "" {
    } else {
      UpperSettles(s[1..]);
      forall c | c in UpperChar(s[0]) ensures Settled(c) {
        UpperCharSettles(s[0], c);
      }
    }
  }

  lemma {:induction false} UpperFixed(s: string)
    requires forall c :: c in s ==> Settled(c)
    ensures Upper(s) == s
  {
    hide UpperChar;
    if s == "" {
    } else {
      assert s[0] in s && Settled(s[0]);
      UpperFixed(s[1..]);
    }
  }

  lemma CapitalsFixed(s: string)
    requires forall c :: c in s ==> 'A' <= c <= 'Z' || c == '_'
    ensures Upper(s) == s
  {
    forall c | c in s ensures Settled(c) {
    }
    UpperFixed(s);
  }

  // Case is irrelevant: a string and its upper-cased form are read as one.
  lemma CaseInsensitive(state: string)
    ensures PollStatus(Upper(state)) == PollStatus(state)
    ensures HookStatus(Upper(state)) == HookStatus(state)
    ensures RefundStatus(Upper(state)) == RefundStatus(state)
  {
    UpperSettles(state);
    UpperFixed(Upper(state));
  }

  // ---------- What each code means ----------

  // Upper case of plain ASCII text: lower-case letters move by 32, all else stays in place.
  lemma {:induction false} UpperAscii(s: string)
    requires forall c :: c in s ==> c < '\U{0080}'
    ensures |Upper(s)| == |s|
    ensures forall i :: 0 <= i < |s| ==>
      Upper(s)[i] as int == if 'a' <= s[i] <= 'z' then s[i] as int - 32 else s[i] as int
  {
    hide UpperChar;
    if s == "" {
    } else {
      assert s[0] in s && forall c :: c in s[1..] ==> c in s;
      UpperAscii(s[1..]);
      AsciiChar(s[0]);
      assert forall i :: 1 <= i < |s| ==> s[i] == s[1..][i - 1];
    }
  }

  lemma AsciiChar(c: char)
    requires c < '\U{0080}'
    ensures |UpperChar(c)| == 1 && UpperChar(c)[0] as int == if 'a' <= c <= 'z' then c as int - 32 else c as int
  {
  }

  // The other characters whose upper case is ASCII: sharp s, dotless i, long s and the ligatures.
  lemma UpperSpecial()
    ensures Upper("\U{00DF}\U{0131}\U{017F}") == "SSIS"
    ensures Upper("\U{FB00}\U{FB01}\U{FB02}") == "FFFIFL"
    ensures Upper("\U{FB03}\U{FB04}\U{FB05}\U{FB06}") == "FFIFFLSTST"
  {
    UpperThree('\U{00DF}', '\U{0131}', '\U{017F}');
    UpperThree('\U{FB00}', '\U{FB01}', '\U{FB02}');
    UpperThree('\U{FB04}', '\U{FB05}', '\U{FB06}');
    UpperCons('\U{FB03}', "\U{FB04}\U{FB05}\U{FB06}");
  }

  lemma UpperCons(c: char, s: string)
    ensures Upper([c] + s) == UpperChar(c) + Upper(s)
  {
    assert ([c] + s)[1..] == s;
  }

  lemma UpperThree(a: char, b: char, c: char)
    ensures Upper([a, b, c]) == UpperChar(a) + UpperChar(b) + UpperChar(c)
  {
    hide UpperChar;
    UpperCons(c, "");
    UpperCons(b, [c]);
    UpperCons(a, [b, c]);
    assert [a, b, c] == [a] + [b, c] && [b, c] == [b] + [c] && [c] == [c] + "";
    assert Upper("") == "";
  }

  // No other character becomes ASCII, so no other spelling meets a table key.
  lemma UpperForeign(c: char)
    requires c as int >= 0x80 && c as int !in {0xDF, 0x131, 0x17F} && !(0xFB00 <= c as int <= 0xFB06)
    ensures forall u :: u in UpperChar(c) ==> u as int >= 0x80
  {
  }

  predicate MeansPaid(code: string) {
    code == "COMPLETED" || code == "SUCCESS" || code == "PAYMENT_SUCCESS"
  }

  predicate MeansFailed(code: string) {
    code == "FAILED" || code == "PAYMENT_ERROR" || code == "PAYMENT_DECLINED" || code == "TIMED_OUT"
  }

  // Every text, in capitals: which ones mean COMPLETED, FAILED or EXPIRED to a webhook and a poll, and SUCCESS or
  // FAILED to a refund. All others mean PENDING.
  lemma Readings(text: string)
    ensures var code := Upper(text);
            && (HookStatus(text) == Completed <==> MeansPaid(code))
            && (PollStatus(text) == Completed <==> MeansPaid(code))
            && (RefundStatus(text) == Success <==> MeansPaid(code))
            && (HookStatus(text) == Failed <==> MeansFailed(code))
            && (PollStatus(text) == Failed <==> MeansFailed(code))
            && (RefundStatus(text) == Failed <==> code == "FAILED")
            && (HookStatus(text) == Expired <==> code == "EXPIRED")
            && (PollStatus(text) == Expired <==> code == "EXPIRED")
            && (HookStatus(text) == Pending <==> !MeansPaid(code) && !MeansFailed(code) && code != "EXPIRED")
            && (PollStatus(text) == Pending <==> !MeansPaid(code) && !MeansFailed(code) && code != "EXPIRED")
            && (RefundStatus(text) == Pending <==> !MeansPaid(code) && code != "FAILED")
  {
    hide Upper;
  }

  // A word in capitals is its own code.
  lemma Capitals(code: string)
    requires forall c :: c in code ==> 'A' <= c <= 'Z' || c == '_'
    ensures Upper(code) == code
    ensures MeansPaid(code) ==> HookStatus(code) == PollStatus(code) == Completed && RefundStatus(code) == Success
    ensures MeansFailed(code) ==> HookStatus(code) == PollStatus(code) == Failed
    ensures code == "EXPIRED" ==> HookStatus(code) == PollStatus(code) == Expired
    ensures !MeansPaid(code) && !MeansFailed(code) && code != "EXPIRED" ==>
      HookStatus(code) == PollStatus(code) == RefundStatus(code) == Pending
  {
    hide Upper, HookStatus, PollStatus, RefundStatus;
    CapitalsFixed(code);
    Readings(code);
  }

  // The codes of the source's tables, word by word.
  lemma PaidCodes()
    ensures HookStatus("COMPLETED") == HookStatus("SUCCESS") == HookStatus("PAYMENT_SUCCESS") == Completed
    ensures PollStatus("COMPLETED") == PollStatus("SUCCESS") == PollStatus("PAYMENT_SUCCESS") == Completed
    ensures RefundStatus("COMPLETED") == RefundStatus("SUCCESS") == RefundStatus("PAYMENT_SUCCESS") == Success
  {
    hide Upper, HookStatus, PollStatus, RefundStatus;
    Capitals("COMPLETED");
    Capitals("SUCCESS");
    Capitals("PAYMENT_SUCCESS");
  }

  lemma FailedCodes()
    ensures HookStatus("FAILED") == HookStatus("PAYMENT_ERROR") == HookStatus("PAYMENT_DECLINED")
            == HookStatus("TIMED_OUT") == Failed
    ensures PollStatus("FAILED") == PollStatus("PAYMENT_ERROR") == PollStatus("PAYMENT_DECLINED")
            == PollStatus("TIMED_OUT") == Failed
    ensures RefundStatus("FAILED") == Failed
  {
    hide Upper, HookStatus, PollStatus, RefundStatus;
    Capitals("FAILED");
    Capitals("PAYMENT_ERROR");
    Capitals("PAYMENT_DECLINED");
    Capitals("TIMED_OUT");
    assert Upper("FAILED") == "FAILED";
    Readings("FAILED");
  }

  lemma OtherCodes()
    ensures HookStatus("EXPIRED") == PollStatus("EXPIRED") == Expired
    ensures HookStatus("PENDING") == PollStatus("PENDING") == RefundStatus("PENDING") == Pending
    ensures HookStatus("PAYMENT_PENDING") == PollStatus("PAYMENT_PENDING") == Pending
    ensures HookStatus("INITIATED") == PollStatus("INITIATED") == Pending
  {
    hide Upper, HookStatus, PollStatus, RefundStatus;
    Capitals("EXPIRED");
    Capitals("PENDING");
    Capitals("PAYMENT_PENDING");
    Capitals("INITIATED");
  }

  // What str() makes of a missing state.
  lemma MissingState()
    ensures HookStatus("None") == PollStatus("None") == RefundStatus("None") == Pending
  {
    hide Upper;
    UpperAscii("None");
    assert Upper("None") == "NONE";
    Readings("None");
  }
}
