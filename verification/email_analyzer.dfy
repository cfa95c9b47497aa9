/** EmailAnalyzer.py: the priority decision rule applied to a language-model
    analysis, and the timestamp text put into the model's prompt. */
module EmailAnalyzer {
  import opened Wrappers
  import opened Emails
  import opened Decimal

  // ---------------------------------------------------------------------
  // The analysis object: a decoded JSON document
  // ---------------------------------------------------------------------

  /** A JSON value as `json.loads` returns it. */
  datatype Value =
    | VNull
    | VBool(b: bool)
    | VInt(i: int)
    | VFloat(f: real)
    | VStr(s: string)
    | VList(items: seq<Value>)
    | VDict(entries: map<string, Value>)

  type Analysis = map<string, Value>

  datatype AnalysisError =
    | MissingKey(key: string)   // `itemgetter` raises KeyError
    | UnorderableUrgency        // `urgent >= 5` raises TypeError

  /** The keys destructured by `get_email_priority`, in lookup order. */
  const AnalysisKeys: seq<string> := ["action", "overdue", "due_soon", "urgent", "explanation"]

  /** Python truthiness of a JSON value. */
  predicate Truthy(v: Value) {
    match v
    case VNull => false
    case VBool(b) => b
    case VInt(i) => i != 0
    case VFloat(f) => f != 0.0
    case VStr(s) => s != []
    case VList(items) => items != []
    case VDict(entries) => entries != map[]
  }

  /** Python's `v >= bound`; `None` where Python raises TypeError.
      A bool compares as the integer 0 or 1. */
  function AtLeast(v: Value, bound: int): Option<bool> {
    match v
    case VBool(b) => Some((if b then 1 else 0) >= bound)
    case VInt(i) => Some(i >= bound)
    case VFloat(f) => Some(f >= bound as real)
    case _ => None
  }

  /** Python's `v < bound`; `None` where Python raises TypeError. */
  function LessThan(v: Value, bound: int): Option<bool> {
    match v
    case VBool(b) => Some((if b then 1 else 0) < bound)
    case VInt(i) => Some(i < bound)
    case VFloat(f) => Some(f < bound as real)
    case _ => None
  }

  /** The first of `keys` absent from `a`: the key `itemgetter` fails on. */
  function FirstMissingKey(a: Analysis, keys: seq<string>): (r: Option<string>)
    ensures r.None? <==> forall i :: 0 <= i < |keys| ==> keys[i] in a
    ensures r.Some? ==> exists i :: 0 <= i < |keys| && keys[i] == r.value && r.value !in a
                                    && forall j :: 0 <= j < i ==> keys[j] in a
  {
    if |keys| == 0 then None
    else if keys[0] !in a then Some(keys[0])
    else
      var r := FirstMissingKey(a, keys[1..]);
      assert r.Some? ==> exists i :: 0 <= i < |keys[1..]| && keys[1..][i] == r.value && r.value !in a
                                     && (forall j :: 0 <= j < i ==> keys[1..][j] in a)
                                     && keys[i + 1] == r.value
                                     && forall j :: 0 <= j < i + 1 ==> keys[j] in a;
      r
  }

  predicate HasAnalysisKeys(a: Analysis) {
    && "action" in a && "overdue" in a && "due_soon" in a
    && "urgent" in a && "explanation" in a
  }

  /** `EmailAnalyzer.get_email_priority`. */
  function GetEmailPriority(analysis: Analysis): (r: Result<Priority, AnalysisError>)
    ensures r.Success? ==> HasAnalysisKeys(analysis)
    ensures forall i :: 0 <= i < |AnalysisKeys| && AnalysisKeys[i] !in analysis
                        && (forall j :: 0 <= j < i ==> AnalysisKeys[j] in analysis)
                        ==> r == Failure(MissingKey(AnalysisKeys[i]))
    ensures r == Failure(UnorderableUrgency) <==>
              HasAnalysisKeys(analysis) && !Truthy(analysis["overdue"]) && !Truthy(analysis["due_soon"])
              && AtLeast(analysis["urgent"], 5).None?
    ensures HasAnalysisKeys(analysis) ==> r.Success? || r == Failure(UnorderableUrgency)
    ensures HasAnalysisKeys(analysis) && Truthy(analysis["overdue"]) ==> r == Success(High)
    ensures HasAnalysisKeys(analysis) && !Truthy(analysis["overdue"]) && Truthy(analysis["due_soon"])
            ==> r == Success(Medium)
    ensures forall atLeastFive: bool ::
              HasAnalysisKeys(analysis) && !Truthy(analysis["overdue"]) && !Truthy(analysis["due_soon"])
              && AtLeast(analysis["urgent"], 5) == Some(atLeastFive)
              ==> r == Success(if atLeastFive then Medium else Low)
  {
    match FirstMissingKey(analysis, AnalysisKeys)
    case Some(key) => Failure(MissingKey(key))
    case None =>
      assert AnalysisKeys[0] in analysis && AnalysisKeys[1] in analysis && AnalysisKeys[2] in analysis
          && AnalysisKeys[3] in analysis && AnalysisKeys[4] in analysis;
      var action, overdue, dueSoon, urgent :=
        analysis["action"], analysis["overdue"], analysis["due_soon"], analysis["urgent"];
      if Truthy(overdue) then Success(High)
      else if Truthy(dueSoon) then Success(Medium)
      else
        match AtLeast(urgent, 5)
        case None => Failure(UnorderableUrgency)
        case Some(true) => Success(Medium)
        case Some(false) =>
          if !Truthy(action) || LessThan(urgent, 5) == Some(true) then Success(Low)
          else Success(Low)
  }

  // ---------------------------------------------------------------------
  // The decision table on well-typed fields
  // ---------------------------------------------------------------------

  /** The priority rule on a well-typed analysis; `urgent` is unrestricted. */
  function Rule(action: bool, overdue: bool, dueSoon: bool, urgent: int): Priority {
    if overdue then High
    else if dueSoon || urgent >= 5 then Medium
    else if !action || urgent < 5 then Low
    else Low
  }

  /** Whenever all keys are present and `urgent` is an integer, the Python
      function computes the decision table on the truthiness of the three
      flags, for every integer urgency (there is no range check). */
  lemma GetEmailPriorityFollowsRule(analysis: Analysis, urgent: int)
    requires HasAnalysisKeys(analysis)
    requires analysis["urgent"] == VInt(urgent)
    ensures GetEmailPriority(analysis)
            == Success(Rule(Truthy(analysis["action"]), Truthy(analysis["overdue"]),
                            Truthy(analysis["due_soon"]), urgent))
  {
  }

  /** `action` never influences the outcome, whatever its value or type. */
  lemma GetEmailPriorityIgnoresAction(analysis: Analysis, v: Value)
    requires "action" in analysis
    ensures GetEmailPriority(analysis["action" := v]) == GetEmailPriority(analysis)
  {
  }

  /** The unused `explanation` key is still required. */
  lemma ExplanationIsRequired(analysis: Analysis)
    requires "explanation" !in analysis
    ensures GetEmailPriority(analysis).Failure?
  {
    assert AnalysisKeys[4] == "explanation";
  }

  lemma RuleOverdueIsHigh(action: bool, dueSoon: bool, urgent: int)
    ensures Rule(action, true, dueSoon, urgent) == High
  {
  }

  lemma RuleMediumWhenDueSoonOrUrgent(action: bool, dueSoon: bool, urgent: int)
    requires dueSoon || urgent >= 5
    ensures Rule(action, false, dueSoon, urgent) == Medium
  {
  }

  lemma RuleLowOtherwise(action: bool, urgent: int)
    requires urgent < 5
    ensures Rule(action, false, false, urgent) == Low
  {
  }

  lemma RuleIgnoresAction(overdue: bool, dueSoon: bool, urgent: int)
    ensures Rule(false, overdue, dueSoon, urgent) == Rule(true, overdue, dueSoon, urgent)
  {
  }

  lemma RuleThresholdIsFive(action: bool)
    ensures Rule(action, false, false, 4) == Low
    ensures Rule(action, false, false, 5) == Medium
  {
  }

  /** Raising any signal never lowers the priority. */
  lemma RuleMonotone(action: bool, overdue: bool, dueSoon: bool, urgent: int,
                     action': bool, overdue': bool, dueSoon': bool, urgent': int)
    requires overdue ==> overdue'
    requires dueSoon ==> dueSoon'
    requires urgent <= urgent'
    ensures Rank(Rule(action, overdue, dueSoon, urgent)) <= Rank(Rule(action', overdue', dueSoon', urgent'))
  {
  }

  function Max(p: Priority, q: Priority): Priority {
    if Rank(p) >= Rank(q) then p else q
  }

  function Signal(raised: bool, p: Priority): Priority {
    if raised then p else Low
  }

  /** An independent reading of the table: the priority is the highest level
      raised by any single signal (overdue raises HIGH; due-soon and an
      urgency of at least 5 each raise MEDIUM). */
  lemma RuleIsHighestSignal(action: bool, overdue: bool, dueSoon: bool, urgent: int)
    ensures Rule(action, overdue, dueSoon, urgent)
         == Max(Max(Signal(overdue, High), Signal(dueSoon, Medium)), Signal(urgent >= 5, Medium))
  {
  }

  // ---------------------------------------------------------------------
  // __get_timestamp_from_datetime
  // ---------------------------------------------------------------------

  /** `month/day/year at hour:minute:second`, decimal, unpadded. The text is
      built from its tail, each field in front of the separator that follows
      it; each step shows that `ParseTimestamp` reads that field back. */
  function FormatTimestamp(dt: DateTime): (r: string)
    ensures ParseTimestamp(r) == Some(dt.(microsecond := 0))
    ensures Unpadded(r)
  {
    var fromSecond := NatToString(dt.second);
    var fromMinute := NatToString(dt.minute) + (":" + fromSecond);
    var fromHour := NatToString(dt.hour) + (":" + fromMinute);
    var fromYear := NatToString(dt.year) + (" at " + fromHour);
    var fromDay := NatToString(dt.day) + ("/" + fromYear);
    var fromMonth := NatToString(dt.month) + ("/" + fromDay);
    ReadNatOfNatToString(dt.second, []);
    assert fromSecond + [] == fromSecond;
    ExpectLiteral(":", fromSecond);
    ReadNatOfNatToString(dt.minute, ":" + fromSecond);
    ExpectLiteral(":", fromMinute);
    ReadNatOfNatToString(dt.hour, ":" + fromMinute);
    ExpectLiteral(" at ", fromHour);
    ReadNatOfNatToString(dt.year, " at " + fromHour);
    ExpectLiteral("/", fromYear);
    ReadNatOfNatToString(dt.day, "/" + fromYear);
    ExpectLiteral("/", fromDay);
    ReadNatOfNatToString(dt.month, "/" + fromDay);
    assert Unpadded(fromSecond);
    UnpaddedBeforeSeparator(dt.minute, ":", fromSecond);
    UnpaddedBeforeSeparator(dt.hour, ":", fromMinute);
    UnpaddedBeforeSeparator(dt.year, " at ", fromHour);
    UnpaddedBeforeSeparator(dt.day, "/", fromYear);
    UnpaddedBeforeSeparator(dt.month, "/", fromDay);
    fromMonth
  }

  /** No number in `s` has a leading zero: a '0' followed by a digit is
      always preceded by a digit. */
  predicate Unpadded(s: string) {
    forall i :: 0 <= i < |s| - 1 && s[i] == '0' && IsDigit(s[i + 1]) ==> 0 < i && IsDigit(s[i - 1])
  }

  predicate NoDigits(s: string) {
    forall i :: 0 <= i < |s| ==> !IsDigit(s[i])
  }

  /** A rendered number followed by a separator keeps an unpadded tail
      unpadded. */
  lemma UnpaddedBeforeSeparator(n: nat, sep: string, rest: string)
    requires |sep| > 0 && NoDigits(sep)
    requires Unpadded(rest)
    ensures Unpadded(NatToString(n) + (sep + rest))
  {
  }

  /** Strips the literal `lit` off the front of `s`. */
  function Expect(lit: string, s: string): (r: Option<string>)
    ensures r.Some? ==> s == lit + r.value
  {
    if |lit| <= |s| && s[..|lit|] == lit then
      assert s == s[..|lit|] + s[|lit|..];
      Some(s[|lit|..])
    else None
  }

  /** Reads a timestamp back; the partner of `FormatTimestamp`. The text
      carries no microseconds, so they come back as 0. */
  function ParseTimestamp(s: string): Option<DateTime> {
    var month :- ReadNat(s);
    var r1 :- Expect("/", month.1);
    var day :- ReadNat(r1);
    var r2 :- Expect("/", day.1);
    var year :- ReadNat(r2);
    var r3 :- Expect(" at ", year.1);
    var hour :- ReadNat(r3);
    var r4 :- Expect(":", hour.1);
    var minute :- ReadNat(r4);
    var r5 :- Expect(":", minute.1);
    var second :- ReadNat(r5);
    if second.1 == [] then Some(DateTime(year.0, month.0, day.0, hour.0, minute.0, second.0, 0))
    else None
  }

  lemma ExpectLiteral(lit: string, rest: string)
    ensures Expect(lit, lit + rest) == Some(rest)
  {
  }

  /** Two datetimes render to the same text exactly when they agree on every
      field except the microseconds, which are not printed. */
  lemma FormatTimestampInjective(a: DateTime, b: DateTime)
    ensures FormatTimestamp(a) == FormatTimestamp(b) <==> a.(microsecond := 0) == b.(microsecond := 0)
  {
  }
}
