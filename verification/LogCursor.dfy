/** The dashboard's log panel: which stream entries each frame carries (internal/api/dashboard.go). */
module LogCursor {
  import opened Collections
  import opened Text

  // ----- stream ids -----

  const MAX_U64: nat := 0xFFFF_FFFF_FFFF_FFFF

  type U64 = n: nat | n <= MAX_U64

  datatype Id = Id(ms: U64, num: U64)

  predicate IdLess(a: Id, b: Id) { a.ms < b.ms || (a.ms == b.ms && a.num < b.num) }

  function Format(id: Id): string { ToDecimal(id.ms) + "-" + ToDecimal(id.num) }

  // Digits read from the left; a character that is no digit makes the whole 0, unless the number is already too large
  // for 64 bits, which gives the largest one.
  function ParseDigits(text: string, n: U64 := 0): U64
    decreases |text|
  {
    if text == "" then n
    else if !IsDigit(text[0]) then 0
    else if n * 10 + ValueOf(text[0]) > MAX_U64 then MAX_U64
    else ParseDigits(text[1..], n * 10 + ValueOf(text[0]))
  }

  // The text around the first hyphen.
  function Cut(text: string): (string, Option<string>) {
    if text == "" then ("", None)
    else if text[0] == '-' then ("", Some(text[1..]))
    else
      var (before, after) := Cut(text[1..]);
      ([text[0]] + before, after)
  }

  function SplitStreamId(text: string): (U64, U64) {
    var (ms, num) := Cut(text);
    if num.None? then (ParseDigits(ms), 0) else (ParseDigits(ms), ParseDigits(num.value))
  }

  predicate StreamIdNewer(a: string, b: string) {
    var (aMs, aNum) := SplitStreamId(a);
    var (bMs, bNum) := SplitStreamId(b);
    if aMs != bMs then aMs > bMs else aNum > bNum
  }

  lemma {:induction false} ParseContinues(n: U64, rest: string)
    ensures ParseDigits(ToDecimal(n) + rest) == ParseDigits(rest, n)
    decreases n
  {
    if n < 10 {
      assert ([DigitOf(n)] + rest)[1..] == rest;
    } else {
      var d := [DigitOf(n % 10)];
      assert ToDecimal(n) + rest == ToDecimal(n / 10) + (d + rest);
      ParseContinues(n / 10, d + rest);
      assert (d + rest)[1..] == rest;
    }
  }

  lemma {:induction false} CutAtHyphen(before: string, after: string)
    requires forall i :: 0 <= i < |before| ==> before[i] != '-'
    ensures Cut(before + "-" + after) == (before, Some(after))
    decreases |before|
  {
    var text := before + "-" + after;
    if before == "" {
      assert text[1..] == after;
    } else {
      assert text[1..] == before[1..] + "-" + after;
      CutAtHyphen(before[1..], after);
      assert [before[0]] + before[1..] == before;
    }
  }

  lemma SplitFormat(id: Id)
    ensures SplitStreamId(Format(id)) == (id.ms, id.num)
  {
    hide ToDecimal, ParseDigits, Cut;
    var ms, num := ToDecimal(id.ms), ToDecimal(id.num);
    CutAtHyphen(ms, num);
    ParseContinues(id.ms, "");
    ParseContinues(id.num, "");
    assert ms + "" == ms && num + "" == num;
    ParseNothing(id.ms);
    ParseNothing(id.num);
  }

  lemma ParseNothing(n: U64)
    ensures ParseDigits("", n) == n
  {
  }

  // Text that names no number reads as 0: without a hyphen the second part, and any part with no digits at all.
  lemma MalformedReadsZero(text: string)
    ensures Cut(text).1.None? ==> SplitStreamId(text).1 == 0
    ensures text == "" || !IsDigit(text[0]) ==> SplitStreamId(text).0 == 0
  {
  }

  // Ids are compared as numbers, not as text.
  lemma NewerIsLater(a: Id, b: Id)
    ensures StreamIdNewer(Format(a), Format(b)) <==> IdLess(b, a)
  {
    SplitFormat(a);
    SplitFormat(b);
  }

  lemma FormatNeverEmpty(id: Id)
    ensures Format(id) != ""
  {
  }

  ghost predicate Increasing(ids: seq<Id>) { forall i, j :: 0 <= i < j < |ids| ==> IdLess(ids[i], ids[j]) }

  // ----- one read -----

  // The newest entries, at most `count`, oldest first.
  function Window(stream: seq<Id>, count: nat): seq<Id> { stream[|stream| - Min(count, |stream|)..] }

  function KeepNewer(ids: seq<Id>, since: string): seq<Id> {
    if ids == [] then []
    else (if since == "" || StreamIdNewer(Format(ids[0]), since) then [ids[0]] else []) + KeepNewer(ids[1..], since)
  }

  function Newest(stream: seq<Id>, count: nat): string {
    if count == 0 || stream == [] then "" else Format(stream[|stream| - 1])
  }

  function Reversed(ids: seq<Id>): (r: seq<Id>)
    ensures |r| == |ids| && forall i :: 0 <= i < |ids| ==> r[i] == ids[|ids| - 1 - i]
  {
    seq(|ids|, i requires 0 <= i < |ids| => ids[|ids| - 1 - i])
  }

  lemma KeepNewerSplit(ids: seq<Id>, since: string, i: nat)
    requires i < |ids|
    ensures KeepNewer(ids[i..], since)
         == (if since == "" || StreamIdNewer(Format(ids[i]), since) then [ids[i]] else []) + KeepNewer(ids[i + 1..], since)
  {
    hide StreamIdNewer, Format;
    assert ids[i..][1..] == ids[i + 1..];
  }

  // Walks newest-first entries from the back, keeping those past the cursor.
  method KeepFromBack(entries: seq<Id>, since: string) returns (logs: seq<Id>)
    ensures logs == KeepNewer(Reversed(entries), since)
  {
    hide StreamIdNewer, Format, KeepNewer;
    logs := [];
    ghost var w := Reversed(entries);
    ghost var kept := KeepNewer(w, since);
    assert w[0..] == w;
    for i := 0 to |entries|
      invariant kept == logs + KeepNewer(w[i..], since)
    {
      KeepNewerSplit(w, since, i);
      var e := entries[|entries| - 1 - i];
      assert e == w[i];
      if since != "" && !StreamIdNewer(Format(e), since) { continue; }
      AppendThen(logs, e, KeepNewer(w[i + 1..], since));
      logs := logs + [e];
    }
    assert w[|entries|..] == [];
    NothingToKeep(since);
  }

  lemma NothingToKeep(since: string)
    ensures KeepNewer([], since) == []
  {
  }

  // The store returns entries newest first; the panel wants them in order.
  method RecentLogs(stream: seq<Id>, since: string, count: nat) returns (logs: seq<Id>, newest: string)
    ensures logs == KeepNewer(Window(stream, count), since) && newest == Newest(stream, count)
  {
    hide StreamIdNewer, Format;
    var entries := Reversed(Window(stream, count));
    if |entries| == 0 {
      return [], "";
    }
    newest := Format(entries[0]);
    assert Reversed(entries) == Window(stream, count);
    logs := KeepFromBack(entries, since);
  }

  // ----- a session -----

  /** One connected page: the stream so far, the cursor, how far into the stream the cursor points, and everything
      delivered. */
  datatype Session = Session(stream: seq<Id>, cursor: string, pos: nat, sent: seq<Id>)

  datatype FrameOutcome = Sent | LogReadFails | SnapshotFails

  datatype Event = Append(id: Id) | Frame(count: nat, outcome: FrameOutcome)

  predicate Possible(s: Session, e: Event) {
    e.Append? ==> s.stream == [] || IdLess(s.stream[|s.stream| - 1], e.id)
  }

  function Next(s: Session, e: Event): Session {
    match e
    case Append(id) => s.(stream := s.stream + [id])
    case Frame(count, outcome) =>
      if outcome != Sent then s
      else
        var newest := Newest(s.stream, count);
        var s' := s.(sent := s.sent + KeepNewer(Window(s.stream, count), s.cursor));
        if newest == "" then s' else s'.(cursor := newest, pos := |s.stream|)
  }

  ghost predicate Inv(s: Session) {
    && Increasing(s.stream) && s.pos <= |s.stream|
    && s.cursor == (if s.pos == 0 then "" else Format(s.stream[s.pos - 1]))
    && Increasing(s.sent)
    && (s.sent != [] ==> s.pos > 0)
    && (forall i :: 0 <= i < |s.sent| && s.pos > 0 ==> AtMost(s.sent[i], s.stream[s.pos - 1]))
  }

  lemma {:induction false} KeepsSuffix(stream: seq<Id>, pos: nat, from_: nat)
    requires Increasing(stream) && 0 < pos <= |stream| && from_ <= |stream|
    ensures KeepNewer(stream[from_..], Format(stream[pos - 1])) == stream[Max(from_, pos)..]
    decreases |stream| - from_
  {
    FormatNeverEmpty(stream[pos - 1]);
    if from_ < |stream| {
      hide Format, StreamIdNewer;
      NewerIsLater(stream[from_], stream[pos - 1]);
      assert stream[from_..][1..] == stream[from_ + 1..];
      KeepsSuffix(stream, pos, from_ + 1);
      if from_ >= pos {
        assert stream[from_..] == [stream[from_]] + stream[from_ + 1..];
      }
    }
  }

  lemma {:induction false} KeepsAll(ids: seq<Id>)
    ensures KeepNewer(ids, "") == ids
    decreases |ids|
  {
    if ids != [] {
      KeepsAll(ids[1..]);
    }
  }

  // A frame carries exactly the part of the window past the cursor.
  lemma FrameCarries(s: Session, count: nat)
    requires Inv(s)
    ensures KeepNewer(Window(s.stream, count), s.cursor)
         == s.stream[Max(|s.stream| - Min(count, |s.stream|), s.pos)..]
  {
    hide KeepNewer, Format, AtMost, IdLess;
    if s.pos == 0 {
      KeepsAll(Window(s.stream, count));
    } else {
      KeepsSuffix(s.stream, s.pos, |s.stream| - Min(count, |s.stream|));
    }
  }

  lemma StepKeeps(s: Session, e: Event)
    requires Inv(s) && Possible(s, e)
    ensures Inv(Next(s, e))
  {
    hide KeepNewer, Format;
    if e.Frame? && e.outcome == Sent {
      FrameKeeps(s, e.count);
    }
  }

  predicate AtMost(a: Id, b: Id) { a == b || IdLess(a, b) }

  // What was sent lies at or before the cursor, so anything past it extends the order.
  lemma ExtendIncreasing(sent: seq<Id>, stream: seq<Id>, pos: nat, m: nat)
    requires Increasing(sent) && Increasing(stream) && pos <= m <= |stream| && |stream| > 0
    requires sent != [] ==> pos > 0
    requires forall i :: 0 <= i < |sent| && pos > 0 ==> AtMost(sent[i], stream[pos - 1])
    ensures Increasing(sent + stream[m..])
    ensures forall i :: 0 <= i < |sent + stream[m..]| ==> AtMost((sent + stream[m..])[i], stream[|stream| - 1])
  {
    var all := sent + stream[m..];
    forall i | 0 <= i < |all|
      ensures AtMost(all[i], stream[|stream| - 1])
    {
      if i < |sent| {
        assert AtMost(sent[i], stream[pos - 1]);
      } else {
        assert all[i] == stream[m + (i - |sent|)];
      }
    }
    forall i, j | 0 <= i < j < |all|
      ensures IdLess(all[i], all[j])
    {
      if j >= |sent| {
        assert all[j] == stream[m + (j - |sent|)];
        if i < |sent| {
          assert AtMost(sent[i], stream[pos - 1]);
        } else {
          assert all[i] == stream[m + (i - |sent|)];
        }
      }
    }
  }

  lemma FrameKeeps(s: Session, count: nat)
    requires Inv(s)
    ensures Inv(Next(s, Frame(count, Sent)))
  {
    hide KeepNewer, Format;
    FrameCarries(s, count);
    var m := Max(|s.stream| - Min(count, |s.stream|), s.pos);
    if count > 0 && s.stream != [] {
      FormatNeverEmpty(s.stream[|s.stream| - 1]);
      ExtendIncreasing(s.sent, s.stream, s.pos, m);
      hide Increasing, AtMost;
    } else {
      assert s.sent + s.stream[m..] == s.sent;
    }
  }

  ghost predicate IsRun(s: Session, events: seq<Event>)
    decreases |events|
  {
    events == [] || (Possible(s, events[0]) && IsRun(Next(s, events[0]), events[1..]))
  }

  function After(s: Session, events: seq<Event>): Session
    decreases |events|
  {
    if events == [] then s else After(Next(s, events[0]), events[1..])
  }

  // Whatever reads fail and however much is logged between frames, what the page receives only moves forward: no
  // entry comes twice and none out of order.
  lemma {:induction false} DeliveredInOrder(s: Session, events: seq<Event>)
    requires Inv(s) && IsRun(s, events)
    ensures Inv(After(s, events)) && Increasing(After(s, events).sent)
    decreases |events|
  {
    hide Next, Possible;
    if events != [] {
      StepKeeps(s, events[0]);
      DeliveredInOrder(Next(s, events[0]), events[1..]);
    }
  }

  // ----- gaps -----

  // Everything delivered is one unbroken stretch of the stream ending at the cursor.
  ghost predicate GapFree(s: Session) { |s.sent| <= s.pos <= |s.stream| && s.sent == s.stream[s.pos - |s.sent|..s.pos] }

  lemma StretchExtends(stream: seq<Id>, lo: nat, pos: nat)
    requires lo <= pos <= |stream|
    ensures stream[lo..pos] + stream[pos..] == stream[lo..|stream|]
  {
  }

  // The session after a frame that was sent.
  lemma FrameMoves(s: Session, count: nat)
    requires Inv(s)
    ensures var m, s' := Max(|s.stream| - Min(count, |s.stream|), s.pos), Next(s, Frame(count, Sent));
            && s'.stream == s.stream && s'.sent == s.sent + s.stream[m..]
            && s'.pos == (if count > 0 then |s.stream| else s.pos)
  {
    hide KeepNewer, Format, IdLess, AtMost, Increasing;
    FrameCarries(s, count);
    if s.stream != [] {
      FormatNeverEmpty(s.stream[|s.stream| - 1]);
    }
  }

  lemma FrameGapFree(s: Session, count: nat)
    requires Inv(s) && GapFree(s) && (s.pos > 0 ==> |s.stream| - s.pos <= count)
    ensures GapFree(Next(s, Frame(count, Sent)))
  {
    FrameMoves(s, count);
    var s' := Next(s, Frame(count, Sent));
    hide Next, Inv;
    if s.pos > 0 {
      CarryOn(s, s');
    } else {
      FirstStretch(s, s', count);
    }
  }

  lemma CarryOn(s: Session, s': Session)
    requires GapFree(s) && s'.stream == s.stream && s'.sent == s.sent + s.stream[s.pos..]
    requires s'.pos == |s.stream|
    ensures GapFree(s')
  {
    StretchExtends(s.stream, s.pos - |s.sent|, s.pos);
    StretchIsGapFree(s', s.pos - |s.sent|);
  }

  lemma FirstStretch(s: Session, s': Session, count: nat)
    requires GapFree(s) && s.pos == 0 && s'.stream == s.stream
    requires s'.sent == s.sent + s.stream[|s.stream| - Min(count, |s.stream|)..]
    requires s'.pos == if count > 0 then |s.stream| else 0
    ensures GapFree(s')
  {
    var m := |s.stream| - Min(count, |s.stream|);
    assert s.sent == [] && s'.sent == s.stream[m..];
    if count > 0 { StretchIsGapFree(s', m); }
  }

  lemma StretchIsGapFree(s: Session, lo: nat)
    requires lo <= s.pos == |s.stream| && s.sent == s.stream[lo..|s.stream|]
    ensures GapFree(s)
  {
  }

  // A frame keeps the stretch unbroken exactly when it can carry everything past the cursor.
  lemma FrameGapFreeIff(s: Session, count: nat)
    requires Inv(s) && GapFree(s) && s.sent != [] && count > 0
    ensures GapFree(Next(s, Frame(count, Sent))) <==> |s.stream| - s.pos <= count
  {
    if |s.stream| - s.pos <= count {
      FrameGapFree(s, count);
    } else {
      FrameMoves(s, count);
      var s' := Next(s, Frame(count, Sent));
      hide Next;
      assert s'.sent[0] == s.stream[s.pos - |s.sent|] && |s'.sent| == |s.sent| + count;
      assert IdLess(s.stream[s.pos - |s.sent|], s.stream[|s.stream| - |s'.sent|]);
    }
  }

  ghost predicate KeepsUp(s: Session, events: seq<Event>)
    decreases |events|
  {
    events != [] ==>
      && (events[0].Frame? && s.pos > 0 ==> |s.stream| - s.pos <= events[0].count)
      && KeepsUp(Next(s, events[0]), events[1..])
  }

  lemma GapFreeStep(s: Session, e: Event)
    requires Inv(s) && GapFree(s) && Possible(s, e)
    requires e.Frame? && s.pos > 0 ==> |s.stream| - s.pos <= e.count
    ensures GapFree(Next(s, e))
  {
    hide KeepNewer, Inv;
    if e.Append? {
      assert (s.stream + [e.id])[s.pos - |s.sent|..s.pos] == s.stream[s.pos - |s.sent|..s.pos];
    } else if e.outcome == Sent {
      FrameGapFree(s, e.count);
    }
  }

  // If no more than a frame's worth is logged past the cursor before each later frame, the page misses nothing.
  lemma {:induction false} NothingMissed(s: Session, events: seq<Event>)
    requires Inv(s) && GapFree(s) && IsRun(s, events) && KeepsUp(s, events)
    ensures GapFree(After(s, events))
    decreases |events|
  {
    hide Next, Possible, GapFree, Inv;
    if events != [] {
      StepKeeps(s, events[0]);
      GapFreeStep(s, events[0]);
      NothingMissed(Next(s, events[0]), events[1..]);
    }
  }
}
