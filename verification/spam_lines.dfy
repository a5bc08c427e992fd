/** The accumulation loop of the line-seeding script
    (scripts/generate-opreturn-spam.js): replies are split into lines, cleaned,
    filtered to printable ASCII of a minimum byte length, and added to an
    insertion-ordered set until it holds `count` lines or the batch budget is
    spent. The model endpoint is an oracle that answers each batch request with
    text, or fails; `cleanLine` is an uninterpreted function. */
module SpamLines {
  import opened Wrappers
  import opened SpamArgs

  predicate InPrintableRange(c: char) {
    ' ' <= c <= '~'
  }

  /** The regular expression `^[\x20-\x7E]+$` read as a matcher: one character of
      the class, then either the end of the input or another match. */
  predicate IsAsciiPrintable(s: string)
    decreases |s|
  {
    |s| > 0 && InPrintableRange(s[0]) && (|s| == 1 || IsAsciiPrintable(s[1..]))
  }

  /** Reference reading: a non-empty string of characters 0x20 to 0x7E. */
  predicate AllPrintable(s: string) {
    |s| > 0 && forall i :: 0 <= i < |s| ==> InPrintableRange(s[i])
  }

  lemma {:induction false} IsAsciiPrintableIffAllPrintable(s: string)
    ensures IsAsciiPrintable(s) <==> AllPrintable(s)
    decreases |s|
  {
    if |s| > 1 {
      IsAsciiPrintableIffAllPrintable(s[1..]);
      if AllPrintable(s[1..]) && InPrintableRange(s[0]) {
        forall i | 0 <= i < |s|
          ensures InPrintableRange(s[i])
        {
          if i > 0 { assert s[i] == s[1..][i - 1]; }
        }
      }
      if AllPrintable(s) {
        forall i | 0 <= i < |s| - 1
          ensures InPrintableRange(s[1..][i])
        {
          assert s[1..][i] == s[i + 1];
        }
      }
    }
  }

  /** Bytes UTF-8 needs for one character. */
  function Utf8Width(c: char): (n: nat)
    ensures 1 <= n <= 4
    ensures InPrintableRange(c) ==> n == 1
  {
    if (c as int) < 0x80 then 1
    else if (c as int) < 0x800 then 2
    else if (c as int) < 0x10000 then 3
    else 4
  }

  /** `new TextEncoder().encode(s).length`. */
  function Utf8Length(s: string): (n: nat)
    ensures n >= |s|
    decreases |s|
  {
    if |s| == 0 then 0 else Utf8Width(s[0]) + Utf8Length(s[1..])
  }

  /** For printable ASCII the byte length is the character count. */
  lemma {:induction false} Utf8LengthOfAscii(s: string)
    requires forall i :: 0 <= i < |s| ==> InPrintableRange(s[i])
    ensures Utf8Length(s) == |s|
    decreases |s|
  {
    if |s| > 0 {
      assert forall i :: 0 <= i < |s| - 1 ==> s[1..][i] == s[i + 1];
      Utf8LengthOfAscii(s[1..]);
    }
  }

  /** A cleaned line is kept when it is printable ASCII of at least `minBytes` bytes. */
  predicate Accepted(line: string, minBytes: int) {
    IsAsciiPrintable(line) && Utf8Length(line) >= minBytes
  }

  /** For the lines the script keeps, the byte test is a character count. */
  lemma AcceptedIsLength(line: string, minBytes: int)
    ensures Accepted(line, minBytes) <==> AllPrintable(line) && |line| >= minBytes
  {
    IsAsciiPrintableIffAllPrintable(line);
    if AllPrintable(line) {
      Utf8LengthOfAscii(line);
    }
  }

  /** `s.split(sep)` for a one-character separator. */
  function Split(s: string, sep: char): (parts: seq<string>)
    ensures |parts| >= 1
    ensures forall i :: 0 <= i < |parts| ==> sep !in parts[i]
    decreases |s|
  {
    if |s| == 0 then [""]
    else
      var rest := Split(s[1..], sep);
      if s[0] == sep then [""] + rest
      else [[s[0]] + rest[0]] + rest[1..]
  }

  /** `parts.join(sep)`. */
  function Join(parts: seq<string>, sep: char): string
    requires |parts| >= 1
    decreases |parts|
  {
    if |parts| == 1 then parts[0] else parts[0] + [sep] + Join(parts[1..], sep)
  }

  /** Splitting loses nothing: joining the pieces restores the text. */
  lemma {:induction false} JoinSplit(s: string, sep: char)
    ensures Join(Split(s, sep), sep) == s
    decreases |s|
  {
    if |s| > 0 {
      var rest := Split(s[1..], sep);
      JoinSplit(s[1..], sep);
      var parts := Split(s, sep);
      if s[0] == sep {
        assert parts[1..] == rest;
        assert s == [sep] + s[1..];
      } else if |rest| == 1 {
        assert parts == [[s[0]] + rest[0]];
        assert s == [s[0]] + s[1..];
      } else {
        assert parts[1..] == rest[1..];
        assert Join(rest, sep) == rest[0] + [sep] + Join(rest[1..], sep);
        assert s == [s[0]] + s[1..];
      }
    }
  }

  /** `text.split('\n').map(cleanLine).filter(Boolean)`. */
  function CleanedLines(pieces: seq<string>, clean: string -> string): (lines: seq<string>)
    ensures forall i :: 0 <= i < |lines| ==> lines[i] != ""
    ensures forall i :: 0 <= i < |lines| ==> exists j :: 0 <= j < |pieces| && clean(pieces[j]) == lines[i]
    ensures forall j :: 0 <= j < |pieces| && clean(pieces[j]) != "" ==> clean(pieces[j]) in lines
    decreases |pieces|
  {
    if |pieces| == 0 then []
    else
      var rest := CleanedLines(pieces[1..], clean);
      assert forall j :: 1 <= j < |pieces| ==> pieces[j] == pieces[1..][j - 1];
      if clean(pieces[0]) == "" then rest else [clean(pieces[0])] + rest
  }

  /** Cleaning distributes over concatenation, so the kept lines come out in the
      order of the pieces they were cleaned from. */
  lemma {:induction false} CleanedLinesAppend(p1: seq<string>, p2: seq<string>, clean: string -> string)
    ensures CleanedLines(p1 + p2, clean) == CleanedLines(p1, clean) + CleanedLines(p2, clean)
    decreases |p1|
  {
    if |p1| == 0 {
      assert p1 + p2 == p2;
    } else {
      assert (p1 + p2)[1..] == p1[1..] + p2;
      CleanedLinesAppend(p1[1..], p2, clean);
    }
  }

  predicate NoDuplicates(s: seq<string>) {
    forall i, j :: 0 <= i < j < |s| ==> s[i] != s[j]
  }

  /** Adds each of `xs` not yet present, in order: JavaScript's `Set` over
      strings, which keeps first insertion order. */
  function AddAll(acc: seq<string>, xs: seq<string>): (r: seq<string>)
    requires NoDuplicates(acc)
    ensures NoDuplicates(r)
    ensures |acc| <= |r| && r[..|acc|] == acc
    ensures forall x :: x in r <==> x in acc || x in xs
    decreases |xs|
  {
    if |xs| == 0 then acc
    else
      var next := if xs[0] in acc then acc else acc + [xs[0]];
      var r := AddAll(next, xs[1..]);
      assert r[..|acc|] == next[..|acc|];
      assert forall x :: x in xs <==> x == xs[0] || x in xs[1..];
      r
  }

  /** Adding `xs` then `ys` is adding `xs + ys`: insertion happens strictly in
      order, so the set's order is that of first insertion. */
  lemma {:induction false} AddAllAppend(acc: seq<string>, xs: seq<string>, ys: seq<string>)
    requires NoDuplicates(acc)
    ensures AddAll(acc, xs + ys) == AddAll(AddAll(acc, xs), ys)
    decreases |xs|
  {
    if |xs| == 0 {
      assert xs + ys == ys;
    } else {
      assert (xs + ys)[0] == xs[0] && (xs + ys)[1..] == xs[1..] + ys;
      var next := if xs[0] in acc then acc else acc + [xs[0]];
      AddAllAppend(next, xs[1..], ys);
    }
  }

  /** `new Set(existing)`: the loaded lines without repeats, in order of first occurrence. */
  function ToSet(existing: seq<string>): (r: seq<string>)
    ensures NoDuplicates(r)
    ensures forall x :: x in r <==> x in existing
  {
    AddAll([], existing)
  }

  /** The inner loop over one batch's cleaned lines, stated by recursion: each
      accepted line is added, and the loop stops as soon as the set holds
      `count` lines. */
  function Absorb(lines: seq<string>, candidates: seq<string>, count: int, minBytes: int): (r: seq<string>)
    requires NoDuplicates(lines)
    ensures NoDuplicates(r)
    ensures |lines| <= |r| && r[..|lines|] == lines
    ensures forall i :: |lines| <= i < |r| ==> Accepted(r[i], minBytes) && r[i] in candidates
    ensures |lines| < count ==> |r| <= count
    ensures |r| < count ==> forall x :: x in candidates && Accepted(x, minBytes) ==> x in r
    decreases |candidates|
  {
    if |candidates| == 0 then lines
    else
      var line := candidates[0];
      if !Accepted(line, minBytes) then
        var r := Absorb(lines, candidates[1..], count, minBytes);
        assert forall x :: x in candidates ==> x == line || x in candidates[1..];
        r
      else
        var next := if line in lines then lines else lines + [line];
        if |next| >= count then next
        else
          var r := Absorb(next, candidates[1..], count, minBytes);
          assert r[..|lines|] == next[..|lines|];
          assert forall x :: x in candidates ==> x == line || x in candidates[1..];
          assert line in next && next == r[..|next|];
          r
  }

  /** One pass of the inner `for` loop, with its `continue`s and its `break`. */
  method AbsorbBatch(lines: seq<string>, candidates: seq<string>, count: int, minBytes: int)
    returns (out: seq<string>)
    requires NoDuplicates(lines)
    ensures out == Absorb(lines, candidates, count, minBytes)
  {
    out := lines;
    var i := 0;
    while i < |candidates|
      invariant 0 <= i <= |candidates|
      invariant NoDuplicates(out)
      invariant Absorb(out, candidates[i..], count, minBytes) == Absorb(lines, candidates, count, minBytes)
      decreases |candidates| - i
    {
      var line := candidates[i];
      assert candidates[i..][1..] == candidates[i + 1..];
      if !Accepted(line, minBytes) {
        i := i + 1;
        continue;
      }
      if line !in out {
        out := out + [line];
      }
      if |out| >= count {
        return;
      }
      i := i + 1;
    }
  }

  /** One request to the model endpoint. */
  datatype BatchRequest = BatchRequest(index: nat, count: int, minBytes: int, maxOutputTokens: int,
                                       timeoutMs: int, model: string)

  /** The request for batch `index` when the set holds `size` lines. */
  function MakeRequest(c: Config, index: nat, size: int): (req: BatchRequest)
    requires c.batch > 0 && size < c.count
    ensures req.index == index && req.minBytes == c.minBytes && req.timeoutMs == c.timeoutMs && req.model == c.model
    ensures 0 < req.count <= c.batch && req.count <= c.count - size
    ensures req.count == c.batch || req.count == c.count - size
    ensures req.maxOutputTokens == MaxOutputTokens(c.maxOutputTokensArg, req.count)
  {
    var n := RequestCount(c.batch, c.count - size);
    BatchRequest(index, n, c.minBytes, MaxOutputTokens(c.maxOutputTokensArg, n), c.timeoutMs, c.model)
  }

  datatype RunOutcome =
    | MissingApiKey   // exits with status 1 before reading anything
    | NothingToDo     // the file already holds enough lines
    | Completed       // reached `count`
    | Incomplete      // spent every batch short of `count`
    | RequestFailed   // a batch request threw; exits with status 1

  /** What a run leaves behind: how it ended, the line set in memory, the
      requests sent, and the contents of each save of the output file. */
  datatype Report = Report(outcome: RunOutcome, lines: seq<string>, requests: seq<BatchRequest>,
                           saves: seq<seq<string>>)

  /** The line set before batch `k`: the loaded set, or what batch `k - 1` saved. */
  function Before(start: seq<string>, saves: seq<seq<string>>, k: nat): seq<string>
    requires k <= |saves|
  {
    if k == 0 then start else saves[k - 1]
  }

  lemma BeforeExtend(start: seq<string>, saves: seq<seq<string>>, x: seq<string>, k: nat)
    requires k <= |saves|
    ensures Before(start, saves + [x], k) == Before(start, saves, k)
  {
  }

  /** A line set grown from the loaded set `start`: no duplicates, the loaded
      lines first and unchanged, and every added line acceptable. */
  predicate GrownFrom(start: seq<string>, lines: seq<string>, minBytes: int) {
    && NoDuplicates(lines)
    && |start| <= |lines| && lines[..|start|] == start
    && (forall i :: |start| <= i < |lines| ==> Accepted(lines[i], minBytes))
  }

  /** One request per saved batch, each sized from the set as it stood before
      that batch, and every batch started short of `count`. */
  predicate FollowsSizing(c: Config, start: seq<string>, requests: seq<BatchRequest>, saves: seq<seq<string>>)
    requires c.batch > 0
  {
    && |requests| == |saves|
    && forall k :: 0 <= k < |saves| ==>
         |Before(start, saves, k)| < c.count && requests[k] == MakeRequest(c, k, |Before(start, saves, k)|)
  }

  lemma {:induction false} FollowsSizingExtend(c: Config, start: seq<string>, requests: seq<BatchRequest>,
                                               saves: seq<seq<string>>, next: seq<string>)
    requires c.batch > 0
    requires FollowsSizing(c, start, requests, saves)
    requires |Before(start, saves, |saves|)| < c.count
    ensures FollowsSizing(c, start, requests + [MakeRequest(c, |saves|, |Before(start, saves, |saves|)|)],
                          saves + [next])
  {
    var size := |Before(start, saves, |saves|)|;
    var requests' := requests + [MakeRequest(c, |saves|, size)];
    var saves' := saves + [next];
    forall k | 0 <= k < |saves'|
      ensures |Before(start, saves', k)| < c.count && requests'[k] == MakeRequest(c, k, |Before(start, saves', k)|)
    {
      BeforeExtend(start, saves, next, k);
    }
  }

  /** The lines one reply contributes: `text.split('\n').map(cleanLine).filter(Boolean)`. */
  function BatchLines(text: string, clean: string -> string): seq<string> {
    CleanedLines(Split(text, '\n'), clean)
  }

  /** One batch followed its reply: the request was answered, and the set it
      saved is the inner loop run over that reply's lines from the set before. */
  predicate BatchFollowsReply(c: Config, before: seq<string>, request: BatchRequest, saved: seq<string>,
                              reply: BatchRequest -> Option<string>, clean: string -> string)
  {
    && NoDuplicates(before)
    && reply(request).Some?
    && saved == Absorb(before, BatchLines(reply(request).value, clean), c.count, c.minBytes)
  }

  /** Every saved batch followed its reply. */
  predicate FollowsReplies(c: Config, start: seq<string>, reply: BatchRequest -> Option<string>,
                           clean: string -> string, requests: seq<BatchRequest>, saves: seq<seq<string>>)
    requires |saves| <= |requests|
  {
    forall k :: 0 <= k < |saves| ==> BatchFollowsReply(c, Before(start, saves, k), requests[k], saves[k], reply, clean)
  }

  lemma {:induction false} FollowsRepliesExtend(c: Config, start: seq<string>, reply: BatchRequest -> Option<string>,
                                                clean: string -> string, requests: seq<BatchRequest>,
                                                saves: seq<seq<string>>, request: BatchRequest, next: seq<string>)
    requires |saves| == |requests|
    requires FollowsReplies(c, start, reply, clean, requests, saves)
    requires BatchFollowsReply(c, Before(start, saves, |saves|), request, next, reply, clean)
    ensures FollowsReplies(c, start, reply, clean, requests + [request], saves + [next])
  {
    var requests' := requests + [request];
    var saves' := saves + [next];
    forall k | 0 <= k < |saves'|
      ensures BatchFollowsReply(c, Before(start, saves', k), requests'[k], saves'[k], reply, clean)
    {
      BeforeExtend(start, saves, next, k);
      if k < |saves| {
        assert requests'[k] == requests[k] && saves'[k] == saves[k];
      }
    }
  }

  /** `main`. `argv` is the command line, `apiKey` the environment's key,
      `existing` the lines read from the output file, `reply` the model endpoint
      (`None` when the request throws), `clean` the line cleaner. */
  method Generate(argv: seq<string>, apiKey: Option<string>, existing: seq<string>,
                  reply: BatchRequest -> Option<string>, clean: string -> string)
    returns (report: Report)
    ensures apiKey.None? || apiKey.value == "" ==> report == Report(MissingApiKey, [], [], [])
    ensures report.outcome == MissingApiKey <==> apiKey.None? || apiKey.value == ""
    ensures report.outcome != MissingApiKey ==>
              var c := ParseConfig(argv);
              var start := ToSet(existing);
              && (|start| >= c.count <==> report.outcome == NothingToDo)
              && (|start| >= c.count ==> report == Report(NothingToDo, start, [], []))
              && (|start| < c.count ==> CollectedFrom(c, start, reply, clean, report))
  {
    if apiKey.None? || apiKey.value == "" {
      return Report(MissingApiKey, [], [], []);
    }
    var c := ParseConfig(argv);
    var start := ToSet(existing);
    if |start| >= c.count {
      return Report(NothingToDo, start, [], []);
    }
    report := CollectBatches(c, start, reply, clean);
  }

  /** What the batch loop guarantees about a run that started from `start`. */
  predicate CollectedFrom(c: Config, start: seq<string>, reply: BatchRequest -> Option<string>,
                          clean: string -> string, report: Report)
    requires c.count > 0 && c.batch > 0 && NoDuplicates(start)
  {
    var maxBatches := MaxBatches(c.count, c.batch, c.maxBatchesArg);
    var saved := |report.saves|;
    && GrownFrom(start, report.lines, c.minBytes)
    && |report.lines| <= c.count
    && report.lines == Before(start, report.saves, saved)
    && |report.requests| <= maxBatches
    && (report.outcome != RequestFailed ==> FollowsSizing(c, start, report.requests, report.saves))
    && (report.outcome == RequestFailed ==>
          && |report.requests| == saved + 1
          && FollowsSizing(c, start, report.requests[..saved], report.saves)
          && |report.lines| < c.count
          && report.requests[saved] == MakeRequest(c, saved, |report.lines|))
    && saved <= |report.requests|
    && FollowsReplies(c, start, reply, clean, report.requests, report.saves)
    && (report.outcome == RequestFailed <==>
          |report.requests| == saved + 1 && reply(report.requests[saved]).None?)
    && (report.outcome == Completed ==> |report.lines| == c.count)
    && (report.outcome == Incomplete ==> |report.lines| < c.count && |report.requests| == maxBatches)
    && (report.outcome == Completed || report.outcome == Incomplete || report.outcome == RequestFailed)
  }

  /** The state of the outer loop after `|saves|` batches: the set grew from
      `start`, is what the last batch saved, and every batch so far was sized
      from the set before it and absorbed its reply. */
  predicate Progressed(c: Config, start: seq<string>, reply: BatchRequest -> Option<string>, clean: string -> string,
                       lines: seq<string>, requests: seq<BatchRequest>, saves: seq<seq<string>>)
    requires c.count > 0 && c.batch > 0
  {
    && GrownFrom(start, lines, c.minBytes)
    && |lines| <= c.count
    && |saves| <= MaxBatches(c.count, c.batch, c.maxBatchesArg)
    && lines == Before(start, saves, |saves|)
    && |requests| == |saves|
    && FollowsSizing(c, start, requests, saves)
    && FollowsReplies(c, start, reply, clean, requests, saves)
  }

  /** A batch absorbed into a set grown from `start` leaves a set grown from `start`. */
  lemma GrownFromAbsorb(start: seq<string>, lines: seq<string>, candidates: seq<string>, count: int, minBytes: int)
    requires GrownFrom(start, lines, minBytes)
    ensures GrownFrom(start, Absorb(lines, candidates, count, minBytes), minBytes)
  {
    var next := Absorb(lines, candidates, count, minBytes);
    assert next[..|start|] == next[..|lines|][..|start|];
  }

  /** One more answered batch keeps the loop state. */
  lemma {:induction false} ProgressedExtend(c: Config, start: seq<string>, reply: BatchRequest -> Option<string>,
                                            clean: string -> string, lines: seq<string>,
                                            requests: seq<BatchRequest>, saves: seq<seq<string>>, next: seq<string>)
    requires c.count > 0 && c.batch > 0
    requires Progressed(c, start, reply, clean, lines, requests, saves)
    requires |saves| < MaxBatches(c.count, c.batch, c.maxBatchesArg) && |lines| < c.count
    requires BatchFollowsReply(c, lines, MakeRequest(c, |saves|, |lines|), next, reply, clean)
    ensures Progressed(c, start, reply, clean, next, requests + [MakeRequest(c, |saves|, |lines|)], saves + [next])
  {
    var request := MakeRequest(c, |saves|, |lines|);
    GrownFromAbsorb(start, lines, BatchLines(reply(request).value, clean), c.count, c.minBytes);
    FollowsSizingExtend(c, start, requests, saves, next);
    FollowsRepliesExtend(c, start, reply, clean, requests, saves, request, next);
  }

  /** A batch whose request throws ends the run with what was saved so far. */
  lemma {:induction false} FailedRunCollected(c: Config, start: seq<string>, reply: BatchRequest -> Option<string>,
                                              clean: string -> string, lines: seq<string>,
                                              requests: seq<BatchRequest>, saves: seq<seq<string>>)
    requires c.count > 0 && c.batch > 0 && NoDuplicates(start)
    requires Progressed(c, start, reply, clean, lines, requests, saves)
    requires |saves| < MaxBatches(c.count, c.batch, c.maxBatchesArg) && |lines| < c.count
    requires reply(MakeRequest(c, |saves|, |lines|)).None?
    ensures CollectedFrom(c, start, reply, clean,
                          Report(RequestFailed, lines, requests + [MakeRequest(c, |saves|, |lines|)], saves))
  {
    var requests' := requests + [MakeRequest(c, |saves|, |lines|)];
    assert requests'[..|saves|] == requests;
    forall k | 0 <= k < |saves|
      ensures BatchFollowsReply(c, Before(start, saves, k), requests'[k], saves[k], reply, clean)
    {
      assert requests'[k] == requests[k];
    }
  }

  /** A loop that stops because the set is full or the batches are spent. */
  lemma {:induction false} FinishedRunCollected(c: Config, start: seq<string>, reply: BatchRequest -> Option<string>,
                                                clean: string -> string, lines: seq<string>,
                                                requests: seq<BatchRequest>, saves: seq<seq<string>>)
    requires c.count > 0 && c.batch > 0 && NoDuplicates(start)
    requires Progressed(c, start, reply, clean, lines, requests, saves)
    requires |saves| >= MaxBatches(c.count, c.batch, c.maxBatchesArg) || |lines| >= c.count
    ensures CollectedFrom(c, start, reply, clean,
                          Report(if |lines| < c.count then Incomplete else Completed, lines, requests, saves))
  {
  }

  /** The outer `for` loop: at most `maxBatches` batches, stopping once the set
      holds `count` lines, saving the set after every batch. */
  method CollectBatches(c: Config, start: seq<string>, reply: BatchRequest -> Option<string>,
                        clean: string -> string)
    returns (report: Report)
    requires c.count > 0 && c.batch > 0
    requires NoDuplicates(start) && |start| < c.count
    ensures CollectedFrom(c, start, reply, clean, report)
  {
    var maxBatches := MaxBatches(c.count, c.batch, c.maxBatchesArg);
    var lines := start;
    var requests: seq<BatchRequest> := [];
    var saves: seq<seq<string>> := [];
    var i := 0;
    while i < maxBatches && |lines| < c.count
      invariant i == |saves|
      invariant Progressed(c, start, reply, clean, lines, requests, saves)
      decreases maxBatches - i
    {
      var request := MakeRequest(c, i, |lines|);
      var text := reply(request);
      if text.None? {
        FailedRunCollected(c, start, reply, clean, lines, requests, saves);
        return Report(RequestFailed, lines, requests + [request], saves);
      }
      var next := AbsorbBatch(lines, BatchLines(text.value, clean), c.count, c.minBytes);
      ProgressedExtend(c, start, reply, clean, lines, requests, saves, next);
      lines := next;
      requests := requests + [request];
      saves := saves + [next];
      i := i + 1;
    }
    FinishedRunCollected(c, start, reply, clean, lines, requests, saves);
    return Report(if |lines| < c.count then Incomplete else Completed, lines, requests, saves);
  }
}
