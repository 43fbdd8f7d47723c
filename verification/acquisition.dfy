/** The bookkeeping of `acquire_filings` (ecoScraping.py:72-167): the
    user-agent guard, the skipping of blank identifiers, the three counters
    and the final "not all failed" verdict. The downloader itself is a
    parameter that answers, for each call, how many filings it saved or
    that the call failed. */
module Acquisition {
  import opened Text

  /** The placeholder user agent the guard rejects (ecoScraping.py:76). */
  const PLACEHOLDER_USER_AGENT: string := "Your Name Your Email"

  /** The guard of ecoScraping.py:76: neither empty nor the placeholder. */
  predicate UsableUserAgent(userAgent: string) {
    userAgent != "" && userAgent != PLACEHOLDER_USER_AGENT
  }

  /** What one `dl.get` call did: saved `count` filings, or raised. */
  datatype DownloadOutcome = Downloaded(count: nat) | Failed

  /** The downloader's answer for the identifier at a given position of
      the input list, called with the stripped identifier. */
  type Downloader = (nat, string) -> DownloadOutcome

  /** One call to the downloader: the input position and the identifier sent. */
  datatype Attempt = Attempt(position: nat, identifier: string)

  /** `successful_downloads`, `failed_downloads`, `total_files_downloaded`. */
  datatype Tally = Tally(successful: nat, failed: nat, filesDownloaded: nat)

  /** The returned verdict, with the calls made and the final counters. */
  datatype AcquisitionReport = AcquisitionReport(succeeded: bool, attempts: seq<Attempt>, tally: Tally)

  const NO_DOWNLOADS: Tally := Tally(0, 0, 0)

  /** The downloader calls the loop makes, in order: one per identifier
      that is not blank after stripping, with the stripped identifier. */
  function Attempts(ids: seq<string>): (r: seq<Attempt>)
    ensures |r| <= |ids|
    ensures forall k :: 0 <= k < |r| ==> IsCallFor(ids, r[k])
  {
    if ids == [] then []
    else
      var init := ids[..|ids| - 1];
      var prev := Attempts(init);
      var id := Strip(ids[|ids| - 1]);
      assert forall k :: 0 <= k < |prev| ==> IsCallFor(ids, prev[k]) by {
        forall k | 0 <= k < |prev| ensures IsCallFor(ids, prev[k]) {
          assert IsCallFor(init, prev[k]);
          assert init[prev[k].position] == ids[prev[k].position];
        }
      }
      if id == "" then prev else prev + [Attempt(|ids| - 1, id)]
  }

  /** `a` is a call the loop makes for `ids`: its identifier is the
      stripped, non-blank identifier at its position. */
  predicate IsCallFor(ids: seq<string>, a: Attempt) {
    a.position < |ids| && a.identifier == Strip(ids[a.position]) && a.identifier != ""
  }

  /** The calls follow input order. */
  lemma {:induction false} AttemptsInOrder(ids: seq<string>)
    ensures forall k, l :: 0 <= k < l < |Attempts(ids)| ==>
              Attempts(ids)[k].position < Attempts(ids)[l].position
  {
    if ids != [] {
      var init := ids[..|ids| - 1];
      AttemptsInOrder(init);
      var prev := Attempts(init);
      assert forall k :: 0 <= k < |prev| ==> IsCallFor(init, prev[k]);
    }
  }

  /** Some call in `r` is for input position `p`. */
  predicate HasCallAt(r: seq<Attempt>, p: int) {
    exists k :: 0 <= k < |r| && r[k].position == p
  }

  /** Every identifier that is not blank after stripping gets a call. */
  lemma {:induction false} AttemptsComplete(ids: seq<string>)
    ensures forall p :: 0 <= p < |ids| && Strip(ids[p]) != "" ==> HasCallAt(Attempts(ids), p)
  {
    if ids != [] {
      var init := ids[..|ids| - 1];
      AttemptsComplete(init);
      var prev := Attempts(init);
      var last := Strip(ids[|ids| - 1]);
      var r := Attempts(ids);
      assert r == prev + (if last == "" then [] else [Attempt(|ids| - 1, last)]);
      forall p | 0 <= p < |ids| && Strip(ids[p]) != "" ensures HasCallAt(r, p) {
        if p < |init| {
          assert init[p] == ids[p];
          assert HasCallAt(prev, p);
          var k :| 0 <= k < |prev| && prev[k].position == p;
          assert r[k] == prev[k];
        } else {
          assert r[|prev|].position == p;
        }
      }
    }
  }

  /** What each call answered, in call order. */
  function OutcomesOf(attempts: seq<Attempt>, download: Downloader): (os: seq<DownloadOutcome>)
    ensures |os| == |attempts|
    ensures forall k :: 0 <= k < |attempts| ==> os[k] == download(attempts[k].position, attempts[k].identifier)
  {
    seq(|attempts|, k requires 0 <= k < |attempts| => download(attempts[k].position, attempts[k].identifier))
  }

  /** One iteration's update of the counters (ecoScraping.py:128-150). A
      call that found nothing moves neither counter. */
  function Record(t: Tally, o: DownloadOutcome): (r: Tally)
    ensures o == Downloaded(0) ==> r == t
    ensures o.Failed? ==> r == t.(failed := t.failed + 1)
    ensures o.Downloaded? && o.count > 0 ==>
              r == Tally(t.successful + 1, t.failed, t.filesDownloaded + o.count)
    ensures r.successful + r.failed <= t.successful + t.failed + 1
  {
    match o
    case Downloaded(n) =>
      if n > 0 then Tally(t.successful + 1, t.failed, t.filesDownloaded + n) else t
    case Failed => Tally(t.successful, t.failed + 1, t.filesDownloaded)
  }

  /** The counters after the loop, folding `Record` over the answers. */
  function TallyOf(os: seq<DownloadOutcome>): (t: Tally)
    ensures t.successful + t.failed <= |os|
  {
    if os == [] then NO_DOWNLOADS
    else Record(TallyOf(os[..|os| - 1]), os[|os| - 1])
  }

  /** The files a call saved, counting only positive answers. */
  function FilesOf(o: DownloadOutcome): nat {
    if o.Downloaded? && o.count > 0 then o.count else 0
  }

  /** The sum of the positive counts, an independent reference definition. */
  function SumPositive(os: seq<DownloadOutcome>): nat {
    if os == [] then 0 else FilesOf(os[0]) + SumPositive(os[1..])
  }

  lemma {:induction false} SumPositiveAppend(a: seq<DownloadOutcome>, b: seq<DownloadOutcome>)
    ensures SumPositive(a + b) == SumPositive(a) + SumPositive(b)
  {
    if a == [] {
      assert a + b == b;
    } else {
      assert (a + b)[1..] == a[1..] + b;
      SumPositiveAppend(a[1..], b);
    }
  }

  /** `total_files_downloaded` is the sum of the positive counts. */
  lemma {:induction false} FilesDownloadedIsSumOfPositiveCounts(os: seq<DownloadOutcome>)
    ensures TallyOf(os).filesDownloaded == SumPositive(os)
  {
    if os != [] {
      var init := os[..|os| - 1];
      FilesDownloadedIsSumOfPositiveCounts(init);
      SumPositiveAppend(init, [os[|os| - 1]]);
      assert init + [os[|os| - 1]] == os;
    }
  }

  /** The answers that failed, an independent reference count. */
  function CountFailed(os: seq<DownloadOutcome>): nat {
    if os == [] then 0 else (if os[0].Failed? then 1 else 0) + CountFailed(os[1..])
  }

  /** The answers that saved at least one filing, an independent reference count. */
  function CountPositive(os: seq<DownloadOutcome>): nat {
    if os == [] then 0 else (if os[0].Downloaded? && os[0].count > 0 then 1 else 0) + CountPositive(os[1..])
  }

  lemma {:induction false} CountAppend(a: seq<DownloadOutcome>, b: seq<DownloadOutcome>)
    ensures CountFailed(a + b) == CountFailed(a) + CountFailed(b)
    ensures CountPositive(a + b) == CountPositive(a) + CountPositive(b)
  {
    if a == [] {
      assert a + b == b;
    } else {
      assert (a + b)[1..] == a[1..] + b;
      CountAppend(a[1..], b);
    }
  }

  /** `failed_downloads` counts the calls that failed and
      `successful_downloads` the calls that saved at least one filing
      ("Failed tickers", "Successful tickers (>=1 filing)"). */
  lemma {:induction false} TallyCountsAnswers(os: seq<DownloadOutcome>)
    ensures TallyOf(os).failed == CountFailed(os)
    ensures TallyOf(os).successful == CountPositive(os)
  {
    if os != [] {
      var init := os[..|os| - 1];
      TallyCountsAnswers(init);
      CountAppend(init, [os[|os| - 1]]);
      assert init + [os[|os| - 1]] == os;
    }
  }

  /** `failed_downloads` reaches the number of calls exactly when every
      call failed. */
  lemma {:induction false} AllFailedIff(os: seq<DownloadOutcome>)
    ensures TallyOf(os).failed == |os| <==> forall k :: 0 <= k < |os| ==> os[k].Failed?
  {
    if os != [] {
      var init := os[..|os| - 1];
      AllFailedIff(init);
      assert forall k :: 0 <= k < |init| ==> init[k] == os[k];
    }
  }

  /** `len([id for id in identifiers if id])`: identifiers that are
      non-empty BEFORE stripping. */
  function NonEmptyCount(ids: seq<string>): (n: nat)
    ensures n <= |ids|
  {
    if ids == [] then 0
    else NonEmptyCount(ids[..|ids| - 1]) + (if ids[|ids| - 1] != "" then 1 else 0)
  }

  /** Identifiers that are non-empty but blank after stripping: counted by
      the denominator, skipped by the loop. */
  function WhitespaceOnlyCount(ids: seq<string>): nat {
    if ids == [] then 0
    else WhitespaceOnlyCount(ids[..|ids| - 1]) + (if ids[|ids| - 1] != "" && Strip(ids[|ids| - 1]) == "" then 1 else 0)
  }

  /** The denominator of ecoScraping.py:167 is the number of calls plus the
      number of whitespace-only identifiers; it agrees with the calls
      exactly when there are none of those. */
  lemma {:induction false} NonEmptyCountSplits(ids: seq<string>)
    ensures NonEmptyCount(ids) == |Attempts(ids)| + WhitespaceOnlyCount(ids)
  {
    if ids != [] {
      NonEmptyCountSplits(ids[..|ids| - 1]);
    }
  }

  /** Every call is for a non-empty identifier, so the calls never outnumber
      the denominator. */
  lemma {:induction false} AttemptsBoundedByNonEmpty(ids: seq<string>)
    ensures |Attempts(ids)| <= NonEmptyCount(ids)
  {
    if ids != [] {
      AttemptsBoundedByNonEmpty(ids[..|ids| - 1]);
    }
  }

  /** On identifiers that are already stripped and non-blank, the
      denominator counts them all. */
  lemma {:induction false} AttemptsOfStrippedIds(ids: seq<string>)
    requires forall k :: 0 <= k < |ids| ==> ids[k] != "" && Strip(ids[k]) == ids[k]
    ensures NonEmptyCount(ids) == |ids|
  {
    if ids != [] {
      var init := ids[..|ids| - 1];
      assert forall k :: 0 <= k < |init| ==> init[k] == ids[k];
      AttemptsOfStrippedIds(init);
    }
  }

  /** On identifiers already stripped and non-blank, call `k` is for
      identifier `k`, sent unchanged. */
  lemma {:induction false} AttemptsOfStrippedIdsArePositional(ids: seq<string>)
    requires forall k :: 0 <= k < |ids| ==> ids[k] != "" && Strip(ids[k]) == ids[k]
    ensures |Attempts(ids)| == |ids|
    ensures forall k :: 0 <= k < |ids| ==> Attempts(ids)[k] == Attempt(k, ids[k])
  {
    if ids != [] {
      var init := ids[..|ids| - 1];
      assert forall k :: 0 <= k < |init| ==> init[k] == ids[k];
      AttemptsOfStrippedIdsArePositional(init);
      var last := ids[|ids| - 1];
      assert Attempts(ids) == Attempts(init) + [Attempt(|ids| - 1, last)];
    }
  }

  /** `acquire_filings` as written: the guard, then one call per non-blank
      identifier, then `failed < len([id for id in identifiers if id])`. */
  function Acquire(userAgent: string, downloaderReady: bool, ids: seq<string>, download: Downloader): (r: AcquisitionReport)
    ensures !UsableUserAgent(userAgent) || !downloaderReady ==>
              !r.succeeded && r.attempts == [] && r.tally == NO_DOWNLOADS
    ensures UsableUserAgent(userAgent) && downloaderReady ==> r.attempts == Attempts(ids)
    ensures r.tally.successful + r.tally.failed <= |r.attempts| <= NonEmptyCount(ids)
    ensures r.tally.filesDownloaded == SumPositive(OutcomesOf(r.attempts, download))
    ensures r.tally.failed == |r.attempts| <==>
              forall k :: 0 <= k < |r.attempts| ==> download(r.attempts[k].position, r.attempts[k].identifier).Failed?
    ensures r.succeeded <==> UsableUserAgent(userAgent) && downloaderReady && r.tally.failed < NonEmptyCount(ids)
  {
    if !UsableUserAgent(userAgent) || !downloaderReady then
      AcquisitionReport(false, [], NO_DOWNLOADS)
    else
      var attempts := Attempts(ids);
      var os := OutcomesOf(attempts, download);
      var tally := TallyOf(os);
      AttemptsBoundedByNonEmpty(ids);
      FilesDownloadedIsSumOfPositiveCounts(os);
      AllFailedIff(os);
      AcquisitionReport(tally.failed < NonEmptyCount(ids), attempts, tally)
  }

  /** The loop of ecoScraping.py:96-167, counter by counter. */
  method AcquireFilings(userAgent: string, downloaderReady: bool, ids: seq<string>, download: Downloader)
    returns (r: AcquisitionReport)
    ensures r == Acquire(userAgent, downloaderReady, ids, download)
  {
    if !UsableUserAgent(userAgent) || !downloaderReady {
      return AcquisitionReport(false, [], NO_DOWNLOADS);
    }
    var successful, failed, files := 0, 0, 0;
    var attempts: seq<Attempt> := [];
    var i := 0;
    while i < |ids|
      invariant 0 <= i <= |ids|
      invariant attempts == Attempts(ids[..i])
      invariant Tally(successful, failed, files) == TallyOf(OutcomesOf(attempts, download))
    {
      AttemptsStep(ids, i);
      var id := Strip(ids[i]);
      if id != "" {
        var outcome := download(i, id);
        TallyStep(attempts, Attempt(i, id), download);
        attempts := attempts + [Attempt(i, id)];
        match outcome {
          case Downloaded(n) =>
            if n > 0 {
              successful := successful + 1;
              files := files + n;
            }
          case Failed =>
            failed := failed + 1;
        }
      }
      i := i + 1;
    }
    assert ids[..|ids|] == ids;
    var nonEmpty := NonEmptyCount(ids);
    r := AcquisitionReport(failed < nonEmpty, attempts, Tally(successful, failed, files));
  }

  /** One more identifier adds at most one call, at the end. */
  lemma AttemptsStep(ids: seq<string>, i: int)
    requires 0 <= i < |ids|
    ensures Attempts(ids[..i + 1]) ==
            Attempts(ids[..i]) + (if Strip(ids[i]) == "" then [] else [Attempt(i, Strip(ids[i]))])
  {
    assert ids[..i + 1][..i] == ids[..i];
  }

  /** One more call updates the counters by `Record`. */
  lemma TallyStep(attempts: seq<Attempt>, a: Attempt, download: Downloader)
    ensures TallyOf(OutcomesOf(attempts + [a], download)) ==
            Record(TallyOf(OutcomesOf(attempts, download)), download(a.position, a.identifier))
  {
    var before := OutcomesOf(attempts, download);
    var after := OutcomesOf(attempts + [a], download);
    assert after == before + [download(a.position, a.identifier)];
    assert after[..|after| - 1] == before;
  }

  /** The evidently intended verdict: true exactly when at least one call
      did not fail, whatever whitespace the input held. */
  function AcquireIntended(userAgent: string, downloaderReady: bool, ids: seq<string>, download: Downloader): (r: AcquisitionReport)
    ensures r.attempts == (if UsableUserAgent(userAgent) && downloaderReady then Attempts(ids) else [])
    ensures r.succeeded <==>
              UsableUserAgent(userAgent) && downloaderReady &&
              exists k :: 0 <= k < |r.attempts| && !download(r.attempts[k].position, r.attempts[k].identifier).Failed?
  {
    var written := Acquire(userAgent, downloaderReady, ids, download);
    written.(succeeded := UsableUserAgent(userAgent) && downloaderReady && written.tally.failed < |written.attempts|)
  }

  /** The verdict as written is never stricter than the intended one. */
  lemma IntendedImpliesAsWritten(userAgent: string, downloaderReady: bool, ids: seq<string>, download: Downloader)
    ensures AcquireIntended(userAgent, downloaderReady, ids, download).succeeded ==>
            Acquire(userAgent, downloaderReady, ids, download).succeeded
  {
  }

  /** On identifiers already stripped and non-blank (what the entry point
      passes), the verdict as written and the intended one coincide. */
  lemma AcquireMatchesIntendedOnStrippedIds(userAgent: string, downloaderReady: bool, ids: seq<string>, download: Downloader)
    requires forall k :: 0 <= k < |ids| ==> ids[k] != "" && Strip(ids[k]) == ids[k]
    ensures Acquire(userAgent, downloaderReady, ids, download) == AcquireIntended(userAgent, downloaderReady, ids, download)
  {
    AttemptsOfStrippedIds(ids);
    AttemptsOfStrippedIdsArePositional(ids);
  }

  /** A whitespace-only identifier is skipped by the loop but counted in the
      denominator: with one real identifier whose download fails, the
      function as written still reports success. */
  lemma WhitespaceIdentifierMasksFailure()
    ensures var allFail: Downloader := (p, s) => Failed;
            var r := Acquire("agent", true, ["AAPL", " "], allFail);
            && r.attempts == [Attempt(0, "AAPL")]
            && r.tally.failed == |r.attempts|
            && r.succeeded
            && !AcquireIntended("agent", true, ["AAPL", " "], allFail).succeeded
  {
    var allFail: Downloader := (p, s) => Failed;
    var ids := ["AAPL", " "];
    assert Strip(" ") == "" by { assert AllWhitespace(" "); }
    assert Strip("AAPL") == "AAPL" by {
      assert TrimStart("AAPL") == "AAPL";
      assert TrimEnd("AAPL") == "AAPL";
    }
    assert ids[..1] == ["AAPL"];
    assert ["AAPL"][..0] == [];
    assert Attempts(ids) == [Attempt(0, "AAPL")];
    assert NonEmptyCount(ids) == 2;
    assert OutcomesOf([Attempt(0, "AAPL")], allFail) == [Failed];
    assert [Failed][..0] == [];
  }
}
