/** The resumable structural scan (RunStructuralScan, internal/repository/scan.go)
    and the bounded buffer that cuts off a scanner's output
    (internal/repository/analyzer.go). What the scanner prints for a file and the
    matches that output decodes to are given with the file. */
module Scan {
  import opened Domain
  import opened Ordering

  type Byte = x: int | 0 <= x < 256

  // ----- The bounded buffer -----

  class LimitedBuffer {
    const limit: nat
    var buffer: seq<Byte>
    var overflowed: bool

    constructor (limit: nat)
      ensures this.limit == limit && buffer == [] && !overflowed
    {
      this.limit := limit;
      buffer := [];
      overflowed := false;
    }

    // Keeps what fits. What does not fit, and any write once the buffer is full, even an
    // empty one, is an error that stays.
    method Write(value: seq<Byte>) returns (written: nat, failed: bool)
      requires |buffer| <= limit
      modifies this`buffer, this`overflowed
      ensures |buffer| <= limit
      ensures written <= |value| && buffer == old(buffer) + value[..written]
      ensures failed <==> |old(buffer)| == limit || |old(buffer)| + |value| > limit
      ensures overflowed <==> old(overflowed) || failed
      ensures written < |value| <==> |old(buffer)| + |value| > limit
    {
      var remaining := limit - |buffer|;
      if remaining <= 0 {
        overflowed := true;
        return 0, true;
      }
      if |value| > remaining {
        buffer := buffer + value[..remaining];
        overflowed := true;
        return remaining, true;
      }
      buffer := buffer + value;
      return |value|, false;
    }
  }

  function Joined(pieces: seq<seq<Byte>>): seq<Byte> {
    if |pieces| == 0 then [] else Joined(pieces[..|pieces| - 1]) + pieces[|pieces| - 1]
  }

  // Every write finds room: none follows output that has reached the limit.
  predicate WritesFit(pieces: seq<seq<Byte>>, limit: nat) {
    |Joined(pieces)| <= limit && forall i :: 0 <= i < |pieces| ==> |Joined(pieces[..i])| < limit
  }

  lemma {:induction false} JoinedGrows(pieces: seq<seq<Byte>>, i: nat)
    requires i <= |pieces|
    ensures |Joined(pieces[..i])| <= |Joined(pieces)|
    ensures i < |pieces| && |pieces[|pieces| - 1]| > 0 ==> |Joined(pieces[..i])| < |Joined(pieces)|
  {
    if i == |pieces| {
      assert pieces[..i] == pieces;
    } else {
      assert pieces[..|pieces| - 1][..i] == pieces[..i];
      JoinedGrows(pieces[..|pieces| - 1], i);
    }
  }

  /** Output written in non-empty pieces finds room exactly when it fits as a whole. */
  lemma NonEmptyWritesFit(pieces: seq<seq<Byte>>, limit: nat)
    requires forall p :: p in pieces ==> |p| > 0
    ensures WritesFit(pieces, limit) <==> |Joined(pieces)| <= limit
  {
    forall i | 0 <= i < |pieces| ensures |Joined(pieces[..i])| < |Joined(pieces)| {
      assert pieces[|pieces| - 1] in pieces;
      JoinedGrows(pieces, i);
    }
  }

  /** However a process splits its output into writes, running it under a limit
      yields the whole output exactly when every write finds room; for non-empty
      writes that is when the output fits. */
  method RunLimited(pieces: seq<seq<Byte>>, limit: nat) returns (r: Result<seq<Byte>>)
    ensures r == if WritesFit(pieces, limit) then Ok(Joined(pieces)) else Err
    ensures (forall p :: p in pieces ==> |p| > 0) ==>
      r == if |Joined(pieces)| <= limit then Ok(Joined(pieces)) else Err
  {
    var stdout := new LimitedBuffer(limit);
    if forall p :: p in pieces ==> |p| > 0 { NonEmptyWritesFit(pieces, limit); }
    for i := 0 to |pieces|
      invariant stdout.buffer == Joined(pieces[..i]) && !stdout.overflowed && |stdout.buffer| <= limit
      invariant forall k :: 0 <= k < i ==> |Joined(pieces[..k])| < limit
    {
      assert pieces[..i + 1][..i] == pieces[..i];
      var written, failed := stdout.Write(pieces[i]);
      if failed {
        JoinedGrows(pieces, i + 1);
        return Err;
      }
    }
    assert pieces[..|pieces|] == pieces;
    return Ok(stdout.buffer);
  }

  // ----- Files of the pinned tree -----

  datatype Match = Match(path: string, text: string, startLine: nat, endLine: nat)

  // `eligible` is what the suffix, exclusion, mode and binary filters decide.
  datatype File = File(path: string, eligible: bool, size: nat, output: seq<Byte>, matches: seq<Match>)

  datatype Limits = Limits(sourceBytes: nat, outputBytes: nat)

  predicate SortedFiles(fs: seq<File>) {
    && (forall i, j :: 0 <= i < j < |fs| ==> Less(fs[i].path, fs[j].path))
    && (forall i :: 0 <= i < |fs| ==> fs[i].path != "")
  }

  // The file's source and output are both within the limits of one result.
  predicate Fits(f: File, limits: Limits) {
    f.size <= limits.sourceBytes && |f.output| <= limits.outputBytes
  }

  // ----- The scan in one shot -----

  function AllMatches(fs: seq<File>, limits: Limits): seq<Match> {
    if |fs| == 0 then []
    else
      var f := fs[|fs| - 1];
      AllMatches(fs[..|fs| - 1], limits) + if f.eligible && Fits(f, limits) then f.matches else []
  }

  // The scanner's output for the files that are within the limits, in order.
  function AllEvidence(fs: seq<File>, limits: Limits): seq<Byte> {
    if |fs| == 0 then []
    else
      var f := fs[|fs| - 1];
      AllEvidence(fs[..|fs| - 1], limits) + if f.eligible && Fits(f, limits) then f.output else []
  }

  function AllLimitations(fs: seq<File>, limits: Limits): seq<string> {
    if |fs| == 0 then []
    else
      var f := fs[|fs| - 1];
      AllLimitations(fs[..|fs| - 1], limits) + if f.eligible && !Fits(f, limits) then [f.path] else []
  }

  function EligibleCount(fs: seq<File>): nat {
    if |fs| == 0 then 0 else EligibleCount(fs[..|fs| - 1]) + if fs[|fs| - 1].eligible then 1 else 0
  }

  lemma {:induction false} JoinScans(a: seq<File>, b: seq<File>, limits: Limits)
    ensures AllMatches(a + b, limits) == AllMatches(a, limits) + AllMatches(b, limits)
    ensures AllLimitations(a + b, limits) == AllLimitations(a, limits) + AllLimitations(b, limits)
    ensures AllEvidence(a + b, limits) == AllEvidence(a, limits) + AllEvidence(b, limits)
    ensures EligibleCount(a + b) == EligibleCount(a) + EligibleCount(b)
  {
    if |b| == 0 {
      assert a + b == a;
    } else {
      var front := b[..|b| - 1];
      assert (a + b)[..|a + b| - 1] == a + front;
      JoinScans(a, front, limits);
    }
  }

  /** Each file stands for itself, between what comes before and what comes behind it: an
      eligible one within both limits with its matches and its output, an eligible one
      beyond either with one limitation, any other with nothing. */
  lemma FileStandsForItself(fs: seq<File>, limits: Limits, k: nat)
    requires k < |fs|
    ensures var f, before, behind := fs[k], fs[..k], fs[k + 1..];
      var within := f.size <= limits.sourceBytes && |f.output| <= limits.outputBytes;
      && AllMatches(fs, limits) ==
           AllMatches(before, limits) + (if f.eligible && within then f.matches else []) + AllMatches(behind, limits)
      && AllEvidence(fs, limits) ==
           AllEvidence(before, limits) + (if f.eligible && within then f.output else []) + AllEvidence(behind, limits)
      && AllLimitations(fs, limits) ==
           AllLimitations(before, limits) + (if f.eligible && !within then [f.path] else []) +
           AllLimitations(behind, limits)
  {
    var one := [fs[k]];
    assert one[..0] == [];
    assert fs == fs[..k] + one + fs[k + 1..];
    JoinScans(fs[..k], one, limits);
    JoinScans(fs[..k] + one, fs[k + 1..], limits);
  }

  // ----- One page -----

  // The first file a continuation looks at: the cursor's file and all before it are skipped.
  function StartAfter(fs: seq<File>, after: string): (start: nat)
    ensures start <= |fs|
  {
    if |fs| == 0 || after == "" then 0
    else if !Less(after, fs[|fs| - 1].path) then |fs|
    else StartAfter(fs[..|fs| - 1], after)
  }

  lemma {:induction false} SkipsExactly(fs: seq<File>, after: string)
    requires SortedFiles(fs) && after != ""
    ensures forall i :: 0 <= i < |fs| ==> (i < StartAfter(fs, after) <==> !Less(after, fs[i].path))
  {
    if |fs| > 0 {
      var last := fs[|fs| - 1];
      if Less(after, last.path) {
        SkipsExactly(fs[..|fs| - 1], after);
        assert forall i :: 0 <= i < |fs| - 1 ==> fs[..|fs| - 1][i] == fs[i];
      } else {
        forall i | 0 <= i < |fs| ensures !Less(after, fs[i].path) {
          if Less(after, fs[i].path) && i < |fs| - 1 { LessTransitive(after, fs[i].path, last.path); }
        }
      }
    }
  }

  /** A cursor at file `k` continues right behind it. */
  lemma CursorSkips(fs: seq<File>, k: nat)
    requires SortedFiles(fs) && k < |fs|
    ensures StartAfter(fs, fs[k].path) == k + 1
  {
    SkipsExactly(fs, fs[k].path);
    LessIrreflexive(fs[k].path);
    assert k < StartAfter(fs, fs[k].path);
    if k + 1 < |fs| { assert Less(fs[k].path, fs[k + 1].path); }
  }

  lemma {:induction false} LessIrreflexive(a: string)
    ensures !Less(a, a)
  {
    if |a| > 0 { LessIrreflexive(a[1..]); }
  }

  datatype Page = Page(matches: seq<Match>, limitations: seq<string>, evidence: seq<Byte>, complete: bool, next: string)

  // The next eligible file cannot be scanned with what is left of the output limit.
  predicate NoRoom(f: File, limits: Limits, used: nat) {
    f.size > limits.sourceBytes || used + |f.output| > limits.outputBytes || used >= limits.outputBytes
  }

  // Every eligible file but the first of these found room behind the output of those before it.
  predicate TookWhatFits(fs: seq<File>, limits: Limits, start: nat, stop: nat)
    requires start <= stop <= |fs|
  {
    forall i, j :: start <= j < i < stop && fs[j].eligible && fs[i].eligible ==>
      !NoRoom(fs[i], limits, |AllEvidence(fs[start..i], limits)|)
  }

  /** A page handles the files from `start` up to `stop`: all that is left, or up to
      the file its cursor names, with at least one eligible file in it and behind it one
      that no longer fits. */
  predicate Handles(page: Page, fs: seq<File>, limits: Limits, start: nat, stop: nat) {
    && start <= stop <= |fs|
    && page.matches == AllMatches(fs[start..stop], limits)
    && page.limitations == AllLimitations(fs[start..stop], limits)
    && page.evidence == AllEvidence(fs[start..stop], limits)
    && |page.evidence| <= limits.outputBytes
    && TookWhatFits(fs, limits, start, stop)
    && (page.complete ==> stop == |fs| && page.next == "")
    && (!page.complete ==>
          && start < stop && page.next == fs[stop - 1].path && fs[stop - 1].eligible
          && EligibleCount(fs[stop..]) > 0
          && exists i :: stop <= i < |fs| && fs[i].eligible && EligibleCount(fs[stop..i]) == 0 &&
                         NoRoom(fs[i], limits, |page.evidence|))
  }

  // Where the loop stands before file `i`: `stop` is one past the last eligible file handled.
  ghost predicate Scanning(fs: seq<File>, limits: Limits, start: nat, stop: nat, i: nat,
                           matches: seq<Match>, limitations: seq<string>, evidence: seq<Byte>, lastPath: string)
  {
    && start <= stop <= i <= |fs|
    && matches == AllMatches(fs[start..stop], limits)
    && limitations == AllLimitations(fs[start..stop], limits)
    && evidence == AllEvidence(fs[start..stop], limits)
    && EligibleCount(fs[stop..i]) == 0
    && |evidence| <= limits.outputBytes
    && TookWhatFits(fs, limits, start, stop)
    && (lastPath == "" ==> stop == start && evidence == [])
    && (lastPath != "" ==> start < stop && lastPath == fs[stop - 1].path && fs[stop - 1].eligible)
  }

  lemma SkipFile(fs: seq<File>, stop: nat, i: nat)
    requires stop <= i < |fs| && EligibleCount(fs[stop..i]) == 0 && !fs[i].eligible
    ensures EligibleCount(fs[stop..i + 1]) == 0
  {
    assert fs[stop..i + 1][..i - stop] == fs[stop..i];
  }

  lemma EligibleRemains(fs: seq<File>, stop: nat, i: nat)
    requires stop <= i < |fs| && fs[i].eligible
    ensures EligibleCount(fs[stop..]) > 0
  {
    JoinScans(fs[stop..i], fs[i..], Limits(0, 0));
    assert fs[stop..] == fs[stop..i] + fs[i..];
    JoinScans([fs[i]], fs[i + 1..], Limits(0, 0));
    assert fs[i..] == [fs[i]] + fs[i + 1..];
    assert EligibleCount([fs[i]]) == 1;
  }

  // File `i` is eligible and handled: everything up to it is now accounted for.
  lemma TakeFile(fs: seq<File>, limits: Limits, start: nat, stop: nat, i: nat)
    requires start <= stop <= i < |fs| && EligibleCount(fs[stop..i]) == 0 && fs[i].eligible
    ensures AllMatches(fs[start..i + 1], limits) ==
      AllMatches(fs[start..stop], limits) + if Fits(fs[i], limits) then fs[i].matches else []
    ensures AllLimitations(fs[start..i + 1], limits) ==
      AllLimitations(fs[start..stop], limits) + if Fits(fs[i], limits) then [] else [fs[i].path]
    ensures AllEvidence(fs[start..i + 1], limits) ==
      AllEvidence(fs[start..stop], limits) + if Fits(fs[i], limits) then fs[i].output else []
  {
    assert fs[start..i + 1][..i - start] == fs[start..stop] + fs[stop..i];
    JoinScans(fs[start..stop], fs[stop..i], limits);
    NothingEligible(fs[stop..i], limits);
  }

  lemma {:induction false} NothingEligible(fs: seq<File>, limits: Limits)
    requires EligibleCount(fs) == 0
    ensures AllMatches(fs, limits) == [] && AllLimitations(fs, limits) == [] && AllEvidence(fs, limits) == []
  {
    if |fs| > 0 { NothingEligible(fs[..|fs| - 1], limits); }
  }

  // Scanning one file under what is left of the output limit.
  method ScanFile(f: File, limits: Limits, maxOutput: nat) returns (r: Result<seq<Byte>>)
    ensures r == if f.size <= limits.sourceBytes && |f.output| <= maxOutput then Ok(f.output) else Err
  {
    if f.size > limits.sourceBytes { return Err; }
    assert Joined([f.output]) == f.output by { assert [f.output][..0] == []; }
    var pieces := if f.output == [] then [] else [f.output];
    r := RunLimited(pieces, maxOutput);
  }

  lemma StartScanning(fs: seq<File>, limits: Limits, start: nat)
    requires start <= |fs|
    ensures Scanning(fs, limits, start, start, start, [], [], [], "")
  {
    assert fs[start..start] == [];
  }

  lemma {:induction false} NoneEligible(fs: seq<File>, a: nat, b: nat, j: nat)
    requires a <= j < b <= |fs| && EligibleCount(fs[a..b]) == 0
    ensures !fs[j].eligible
  {
    assert fs[a..b][..b - a - 1] == fs[a..b - 1];
    if j < b - 1 { NoneEligible(fs, a, b - 1, j); }
  }

  // Passing over files that are not eligible brings no output.
  lemma SameEvidence(fs: seq<File>, limits: Limits, start: nat, stop: nat, i: nat)
    requires start <= stop <= i <= |fs| && EligibleCount(fs[stop..i]) == 0
    ensures AllEvidence(fs[start..i], limits) == AllEvidence(fs[start..stop], limits)
  {
    assert fs[start..i] == fs[start..stop] + fs[stop..i];
    JoinScans(fs[start..stop], fs[stop..i], limits);
    NothingEligible(fs[stop..i], limits);
  }

  lemma TookOneMore(fs: seq<File>, limits: Limits, start: nat, stop: nat, i: nat)
    requires start <= stop <= i < |fs| && EligibleCount(fs[stop..i]) == 0 && TookWhatFits(fs, limits, start, stop)
    requires stop == start || !NoRoom(fs[i], limits, |AllEvidence(fs[start..stop], limits)|)
    ensures TookWhatFits(fs, limits, start, i + 1)
  {
    hide AllEvidence, NoRoom, EligibleCount;
    SameEvidence(fs, limits, start, stop, i);
    forall k | stop <= k < i ensures !fs[k].eligible { NoneEligible(fs, stop, i, k); }
  }

  // The file at `i` is handled: its matches are added, or a limitation is noted.
  lemma TakeStep(fs: seq<File>, limits: Limits, start: nat, stop: nat, i: nat,
                 matches: seq<Match>, limitations: seq<string>, evidence: seq<Byte>, lastPath: string,
                 scanned: Result<seq<Byte>>)
    requires SortedFiles(fs) && i < |fs| && fs[i].eligible && |evidence| < limits.outputBytes
    requires Scanning(fs, limits, start, stop, i, matches, limitations, evidence, lastPath)
    requires var remaining := limits.outputBytes - |evidence|;
      scanned == if fs[i].size <= limits.sourceBytes && |fs[i].output| <= remaining then Ok(fs[i].output) else Err
    ensures scanned.Ok? ==>
      Scanning(fs, limits, start, i + 1, i + 1, matches + fs[i].matches, limitations, evidence + scanned.value,
               fs[i].path)
    ensures scanned.Err? && lastPath == "" ==>
      Scanning(fs, limits, start, i + 1, i + 1, matches, limitations + [fs[i].path], evidence, fs[i].path)
  {
    hide AllMatches, AllLimitations, AllEvidence, EligibleCount, Less, TookWhatFits;
    TakeFile(fs, limits, start, stop, i);
    if scanned.Ok? || lastPath == "" { TookOneMore(fs, limits, start, stop, i); }
    assert fs[i + 1..i + 1] == [];
    NothingScanned(limits);
  }

  // The next eligible file has to wait for the next page.
  lemma StopStep(fs: seq<File>, limits: Limits, start: nat, stop: nat, i: nat,
                 matches: seq<Match>, limitations: seq<string>, evidence: seq<Byte>, lastPath: string)
    requires i < |fs| && fs[i].eligible
    requires Scanning(fs, limits, start, stop, i, matches, limitations, evidence, lastPath)
    requires lastPath != "" && NoRoom(fs[i], limits, |evidence|)
    ensures Handles(Page(matches, limitations, evidence, false, lastPath), fs, limits, start, stop)
  {
    EligibleRemains(fs, stop, i);
  }

  lemma FinishStep(fs: seq<File>, limits: Limits, start: nat, stop: nat,
                   matches: seq<Match>, limitations: seq<string>, evidence: seq<Byte>, lastPath: string)
    requires Scanning(fs, limits, start, stop, |fs|, matches, limitations, evidence, lastPath)
    ensures Handles(Page(matches, limitations, evidence, true, ""), fs, limits, start, |fs|)
  {
    FinishPage(fs, limits, start, stop);
    assert fs[start..|fs|] == fs[start..];
    forall i | stop <= i < |fs| ensures !fs[i].eligible { NoneEligible(fs, stop, |fs|, i); }
  }

  lemma SkipStep(fs: seq<File>, limits: Limits, start: nat, stop: nat, i: nat,
                 matches: seq<Match>, limitations: seq<string>, evidence: seq<Byte>, lastPath: string)
    requires i < |fs| && !fs[i].eligible
    requires Scanning(fs, limits, start, stop, i, matches, limitations, evidence, lastPath)
    ensures Scanning(fs, limits, start, stop, i + 1, matches, limitations, evidence, lastPath)
  {
    SkipFile(fs, stop, i);
  }

  lemma ScanningBounds(fs: seq<File>, limits: Limits, start: nat, stop: nat, i: nat,
                       matches: seq<Match>, limitations: seq<string>, evidence: seq<Byte>, lastPath: string)
    requires Scanning(fs, limits, start, stop, i, matches, limitations, evidence, lastPath)
    ensures |evidence| <= limits.outputBytes && (lastPath == "" ==> evidence == [])
  {
  }

  method RunStructuralScan(fs: seq<File>, limits: Limits, after: string) returns (page: Page)
    requires SortedFiles(fs) && limits.outputBytes >= 1
    ensures exists stop :: 0 <= stop <= |fs| && Handles(page, fs, limits, StartAfter(fs, after), stop)
  {
    hide Scanning, Handles, SortedFiles, Less, StartAfter;
    ghost var start := StartAfter(fs, after);
    if after != "" { SkipsExactly(fs, after); } else { StartAtFront(fs); }
    ghost var stop: nat := start;
    var matches: seq<Match>, limitations: seq<string>, evidence: seq<Byte>, lastPath := [], [], [], "";
    StartScanning(fs, limits, start);
    for i := 0 to |fs|
      invariant i <= start ==> stop == start && matches == [] && limitations == [] && evidence == [] && lastPath == ""
      invariant i >= start ==> Scanning(fs, limits, start, stop, i, matches, limitations, evidence, lastPath)
    {
      var f := fs[i];
      if after != "" && !Less(after, f.path) { continue; }
      if !f.eligible {
        SkipStep(fs, limits, start, stop, i, matches, limitations, evidence, lastPath);
        continue;
      }
      ScanningBounds(fs, limits, start, stop, i, matches, limitations, evidence, lastPath);
      if lastPath != "" && NoRoom(f, limits, |evidence|) {
        StopStep(fs, limits, start, stop, i, matches, limitations, evidence, lastPath);
      }
      var remaining := limits.outputBytes - |evidence|;
      if remaining < 1 { return Page(matches, limitations, evidence, false, lastPath); }
      var output := ScanFile(f, limits, remaining);
      TakeStep(fs, limits, start, stop, i, matches, limitations, evidence, lastPath, output);
      if output.Err? {
        if lastPath != "" { return Page(matches, limitations, evidence, false, lastPath); }
        limitations := limitations + [f.path];
      } else {
        evidence := evidence + output.value;
        matches := matches + f.matches;
      }
      lastPath := f.path;
      stop := i + 1;
    }
    FinishStep(fs, limits, start, stop, matches, limitations, evidence, lastPath);
    return Page(matches, limitations, evidence, true, "");
  }

  lemma NothingScanned(limits: Limits)
    ensures AllMatches([], limits) == [] && AllLimitations([], limits) == [] && AllEvidence([], limits) == []
    ensures EligibleCount([]) == 0
  {
  }

  lemma FinishPage(fs: seq<File>, limits: Limits, start: nat, stop: nat)
    requires start <= stop <= |fs| && EligibleCount(fs[stop..|fs|]) == 0
    ensures AllMatches(fs[start..], limits) == AllMatches(fs[start..stop], limits)
    ensures AllLimitations(fs[start..], limits) == AllLimitations(fs[start..stop], limits)
    ensures AllEvidence(fs[start..], limits) == AllEvidence(fs[start..stop], limits)
  {
    assert fs[start..] == fs[start..stop] + fs[stop..|fs|];
    JoinScans(fs[start..stop], fs[stop..|fs|], limits);
    NothingEligible(fs[stop..|fs|], limits);
  }

  /** A page takes what fits and no less: every eligible file of it but the first was within what the
      others had left, and the next eligible file behind it is too large or finds too little left. */
  lemma PageIsFull(page: Page, fs: seq<File>, limits: Limits, start: nat, stop: nat)
    requires Handles(page, fs, limits, start, stop)
    ensures forall i, j :: start <= j < i < stop && fs[j].eligible && fs[i].eligible ==>
      && fs[i].size <= limits.sourceBytes && |AllEvidence(fs[start..i], limits)| < limits.outputBytes
      && |AllEvidence(fs[start..i], limits)| + |fs[i].output| <= limits.outputBytes
    ensures !page.complete ==>
      exists i :: (stop <= i < |fs| && fs[i].eligible && forall k :: stop <= k < i ==> !fs[k].eligible) &&
                  (fs[i].size > limits.sourceBytes || |page.evidence| + |fs[i].output| > limits.outputBytes ||
                   |page.evidence| == limits.outputBytes)
  {
    if !page.complete {
      var i :| stop <= i < |fs| && fs[i].eligible && EligibleCount(fs[stop..i]) == 0 &&
        NoRoom(fs[i], limits, |page.evidence|);
      forall k | stop <= k < i ensures !fs[k].eligible { NoneEligible(fs, stop, i, k); }
    }
  }

  /** The files, the limits and the cursor determine the page. */
  lemma PageIsDetermined(p: Page, q: Page, fs: seq<File>, limits: Limits, start: nat, stop: nat, end: nat)
    requires Handles(p, fs, limits, start, stop) && Handles(q, fs, limits, start, end)
    ensures p == q
    decreases end < stop
  {
    hide AllMatches, AllLimitations, AllEvidence, EligibleCount, NoRoom;
    if end < stop {
      PageIsDetermined(q, p, fs, limits, start, end, stop);
    } else if !p.complete {
      var i :| stop <= i < |fs| && fs[i].eligible && EligibleCount(fs[stop..i]) == 0 &&
        NoRoom(fs[i], limits, |p.evidence|);
      forall k | stop <= k < i ensures !fs[k].eligible { NoneEligible(fs, stop, i, k); }
      SameEvidence(fs, limits, start, stop, i);
      assert start <= stop - 1 < i && fs[stop - 1].eligible;
      assert end <= i;
      assert q.complete ==> end == |fs|;
    }
  }

  // ----- Following the cursor -----

  /** The cursor of an incomplete page lies strictly after the one it was asked for. */
  lemma CursorAdvances(page: Page, fs: seq<File>, limits: Limits, after: string, stop: nat)
    requires SortedFiles(fs) && Handles(page, fs, limits, StartAfter(fs, after), stop) && !page.complete
    ensures page.next != "" && Less(after, page.next)
    ensures StartAfter(fs, page.next) == stop
  {
    CursorSkips(fs, stop - 1);
    if after != "" { SkipsExactly(fs, after); }
  }

  lemma PagesJoin(fs: seq<File>, limits: Limits, k: nat, stop: nat)
    requires k <= stop <= |fs|
    ensures AllMatches(fs[..stop], limits) == AllMatches(fs[..k], limits) + AllMatches(fs[k..stop], limits)
    ensures AllLimitations(fs[..stop], limits) == AllLimitations(fs[..k], limits) + AllLimitations(fs[k..stop], limits)
    ensures EligibleCount(fs[..stop]) == EligibleCount(fs[..k]) + EligibleCount(fs[k..stop])
    ensures EligibleCount(fs) == EligibleCount(fs[..stop]) + EligibleCount(fs[stop..])
  {
    assert fs[..stop] == fs[..k] + fs[k..stop];
    JoinScans(fs[..k], fs[k..stop], limits);
    assert fs == fs[..stop] + fs[stop..];
    JoinScans(fs[..stop], fs[stop..], limits);
  }

  lemma LastIsEligible(fs: seq<File>, k: nat, stop: nat)
    requires k < stop <= |fs| && fs[stop - 1].eligible
    ensures EligibleCount(fs[k..stop]) >= 1
  {
    assert fs[k..stop][..stop - k - 1] == fs[k..stop - 1];
  }

  /** Following the cursor to the end gives what one unlimited scan would: the
      matches of every eligible file within the limits and one limitation for every
      other, in path order, each exactly once, in at most as many pages as there are
      eligible files. */
  method ScanToEnd(fs: seq<File>, limits: Limits) returns (matches: seq<Match>, limitations: seq<string>, pages: nat)
    requires SortedFiles(fs) && limits.outputBytes >= 1
    ensures matches == AllMatches(fs, limits) && limitations == AllLimitations(fs, limits)
    ensures pages <= if EligibleCount(fs) == 0 then 1 else EligibleCount(fs)
  {
    hide AllMatches, AllLimitations, AllEvidence, EligibleCount, Fits, Less, StartAfter, NoRoom;
    matches, limitations, pages := [], [], 0;
    var after := "";
    ghost var k := 0;
    assert StartAfter(fs, "") == 0 by { StartAtFront(fs); }
    NothingScanned(limits);
    assert fs[..0] == [];
    var complete := false;
    while !complete
      invariant k <= |fs| && StartAfter(fs, after) == k
      invariant !complete ==>
        && matches == AllMatches(fs[..k], limits) && limitations == AllLimitations(fs[..k], limits)
        && pages <= EligibleCount(fs[..k])
      invariant !complete && pages > 0 ==> pages < EligibleCount(fs)
      invariant complete ==> matches == AllMatches(fs, limits) && limitations == AllLimitations(fs, limits)
      invariant complete ==> pages <= 1 || pages <= EligibleCount(fs)
      decreases |fs| - k, !complete
    {
      var page := RunStructuralScan(fs, limits, after);
      ghost var stop: nat :| stop <= |fs| && Handles(page, fs, limits, StartAfter(fs, after), stop);
      PagesJoin(fs, limits, k, stop);
      matches := matches + page.matches;
      limitations := limitations + page.limitations;
      pages := pages + 1;
      complete := page.complete;
      if complete {
        assert fs[..stop] == fs;
      } else {
        CursorAdvances(page, fs, limits, after, stop);
        LastIsEligible(fs, k, stop);
        after := page.next;
        k := stop;
      }
    }
  }

  lemma StartAtFront(fs: seq<File>)
    ensures StartAfter(fs, "") == 0
  {
  }
}
