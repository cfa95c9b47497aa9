/** main.py: `process_emails`, which sorts emails into the three priority
    lists `[low, medium, high]`. The language-model analysis is an abstract
    function from an email to its decoded JSON analysis. */
module Triage {
  import opened Wrappers
  import opened Emails
  import opened EmailAnalyzer

  /** How an email is classified: by some function to a priority or an
      analysis error. */
  type Classifier = Email -> Result<Priority, AnalysisError>

  /** The classifier `process_emails` uses: analyse, then apply
      `get_email_priority`. */
  function Classify(analyze: Email -> Analysis): (c: Classifier)
    ensures forall e :: c(e).Success? ==> HasAnalysisKeys(analyze(e))
  {
    e => GetEmailPriority(analyze(e))
  }

  /** Reference definition: the emails of `emails` classified as `p`, in
      input order. */
  function Bucket(classify: Classifier, emails: seq<Email>, p: Priority): seq<Email> {
    if |emails| == 0 then []
    else
      var last := emails[|emails| - 1];
      Bucket(classify, emails[..|emails| - 1], p)
      + (if classify(last) == Success(p) then [last] else [])
  }

  predicate AllClassified(classify: Classifier, emails: seq<Email>) {
    forall i :: 0 <= i < |emails| ==> classify(emails[i]).Success?
  }

  /** The loop of `process_emails` for any classifier: one pass, appending
      each email to the list of its priority; the first classification that
      fails aborts the whole pass. */
  method Partition(emails: seq<Email>, classify: Classifier)
    returns (r: Result<seq<seq<Email>>, AnalysisError>)
    ensures r.Success? <==> AllClassified(classify, emails)
    ensures r.Success? ==>
              && |r.value| == 3
              && r.value[0] == Bucket(classify, emails, Low)
              && r.value[1] == Bucket(classify, emails, Medium)
              && r.value[2] == Bucket(classify, emails, High)
    ensures r.Failure? ==>
              exists i :: 0 <= i < |emails| && classify(emails[i]) == Failure(r.error)
                          && forall j :: 0 <= j < i ==> classify(emails[j]).Success?
  {
    var low, medium, high := [], [], [];
    var n := 0;
    while n < |emails|
      invariant 0 <= n <= |emails|
      invariant AllClassified(classify, emails[..n])
      invariant low == Bucket(classify, emails[..n], Low)
      invariant medium == Bucket(classify, emails[..n], Medium)
      invariant high == Bucket(classify, emails[..n], High)
    {
      var e := emails[n];
      assert emails[..n + 1][..n] == emails[..n];
      match classify(e) {
        case Failure(err) =>
          return Failure(err);
        case Success(Low) =>
          low := low + [e];
        case Success(Medium) =>
          medium := medium + [e];
        case Success(High) =>
          high := high + [e];
      }
      n := n + 1;
    }
    assert emails[..n] == emails;
    r := Success([low, medium, high]);
  }

  /** `process_emails`: analyse each email, take `get_email_priority` of the
      analysis, and sort the emails into `[low, medium, high]`. */
  method ProcessEmails(emails: seq<Email>, analyze: Email -> Analysis)
    returns (r: Result<seq<seq<Email>>, AnalysisError>)
    ensures r.Success? <==> AllClassified(Classify(analyze), emails)
    ensures r.Success? ==>
              && |r.value| == 3
              && r.value[0] == Bucket(Classify(analyze), emails, Low)
              && r.value[1] == Bucket(Classify(analyze), emails, Medium)
              && r.value[2] == Bucket(Classify(analyze), emails, High)
    ensures r.Failure? ==>
              exists i :: 0 <= i < |emails| && GetEmailPriority(analyze(emails[i])) == Failure(r.error)
                          && forall j :: 0 <= j < i ==> GetEmailPriority(analyze(emails[j])).Success?
  {
    r := Partition(emails, Classify(analyze));
  }

  // ---------------------------------------------------------------------
  // Properties of the partition
  // ---------------------------------------------------------------------

  lemma EmptyInputGivesEmptyBuckets(classify: Classifier, p: Priority)
    ensures Bucket(classify, [], p) == []
  {
  }

  /** Every email of a bucket was classified with that bucket's priority. */
  lemma {:induction false} BucketMembersHavePriority(classify: Classifier, emails: seq<Email>, p: Priority)
    ensures forall e :: e in Bucket(classify, emails, p) ==> e in emails && classify(e) == Success(p)
  {
    if |emails| > 0 {
      BucketMembersHavePriority(classify, emails[..|emails| - 1], p);
    }
  }

  /** When every email is classified, the three buckets together hold each
      input occurrence exactly once: their lengths add up and their
      multisets add up to the input's. */
  lemma {:induction false} BucketsPartition(classify: Classifier, emails: seq<Email>)
    requires AllClassified(classify, emails)
    ensures |Bucket(classify, emails, Low)| + |Bucket(classify, emails, Medium)| + |Bucket(classify, emails, High)|
            == |emails|
    ensures multiset(Bucket(classify, emails, Low)) + multiset(Bucket(classify, emails, Medium))
            + multiset(Bucket(classify, emails, High)) == multiset(emails)
  {
    if |emails| > 0 {
      var init, last := emails[..|emails| - 1], emails[|emails| - 1];
      assert AllClassified(classify, init) by {
        assert forall i :: 0 <= i < |init| ==> init[i] == emails[i];
      }
      BucketsPartition(classify, init);
      assert emails == init + [last];
      assert classify(last).Success?;
      var p := classify(last).value;
      assert p == Low || p == Medium || p == High;
      ThreeWayStep(Bucket(classify, init, Low), Bucket(classify, init, Medium), Bucket(classify, init, High),
                   Bucket(classify, emails, Low), Bucket(classify, emails, Medium), Bucket(classify, emails, High),
                   init, last);
    }
  }

  /** Appending `last` to exactly one of three lists that partition `init`
      gives three lists that partition `init + [last]`. */
  lemma ThreeWayStep(l0: seq<Email>, m0: seq<Email>, h0: seq<Email>,
                     l: seq<Email>, m: seq<Email>, h: seq<Email>, init: seq<Email>, last: Email)
    requires multiset(l0) + multiset(m0) + multiset(h0) == multiset(init)
    requires || (l == l0 + [last] && m == m0 && h == h0)
             || (l == l0 && m == m0 + [last] && h == h0)
             || (l == l0 && m == m0 && h == h0 + [last])
    ensures multiset(l) + multiset(m) + multiset(h) == multiset(init + [last])
    ensures |l| + |m| + |h| == |init| + 1
  {
    assert multiset(init + [last]) == multiset(init) + multiset{last};
    assert |multiset(l)| + |multiset(m)| + |multiset(h)| == |multiset(init + [last])|;
  }

  /** The indices of the emails classified as `p`, ascending. */
  function BucketIndices(classify: Classifier, emails: seq<Email>, p: Priority): seq<nat> {
    if |emails| == 0 then []
    else
      BucketIndices(classify, emails[..|emails| - 1], p)
      + (if classify(emails[|emails| - 1]) == Success(p) then [|emails| - 1] else [])
  }

  /** Order is preserved: bucket `p` is the input read at a strictly
      increasing sequence of indices, and an index occurs there exactly when
      the email at that index is classified as `p`. */
  lemma {:induction false} BucketIsOrderedSelection(classify: Classifier, emails: seq<Email>, p: Priority)
    ensures var b, idx := Bucket(classify, emails, p), BucketIndices(classify, emails, p);
            && |idx| == |b|
            && (forall k :: 0 <= k < |idx| ==> idx[k] < |emails| && b[k] == emails[idx[k]])
            && (forall k, l :: 0 <= k < l < |idx| ==> idx[k] < idx[l])
            && (forall i :: 0 <= i < |emails| ==> (i in idx <==> classify(emails[i]) == Success(p)))
  {
    if |emails| > 0 {
      var init := emails[..|emails| - 1];
      BucketIsOrderedSelection(classify, init, p);
      assert forall i :: 0 <= i < |init| ==> init[i] == emails[i];
    }
  }
}
