/** The sliding detection history that debounces fire and smoke events
    (backend/app/alpr/fire_provider.py). */
module FireHistory {
  import opened Common

  const MAX_HISTORY := 30

  datatype Kind = Fire | Smoke

  datatype Box = Box(x1: int, y1: int, x2: int, y2: int)

  /** A detection that has passed the confidence and exclusion-zone filters. */
  datatype Candidate = Candidate(kind: Kind, confidence: real, box: Box)

  datatype Item = Item(timestamp: real, box: Box, confidence: real, area: int)

  datatype Key = Key(camera: string, kind: Kind)

  datatype Rules = Rules(minFrames: int, window: real, smokePersistence: real)

  datatype VerificationStatus = Confirmed | Verifying

  datatype Event = Event(key: Key, confidence: real, confirmedFrames: nat, box: Box,
                         status: VerificationStatus)

  /** Reading the ends of an empty history raises. */
  datatype DetectorError = IndexError

  // ---------------------------------------------------------------------------------------
  // One frame, for one kind of event
  // ---------------------------------------------------------------------------------------

  /** The first of the most confident candidates of a kind. */
  function BestMatch(candidates: seq<Candidate>, kind: Kind): (r: Option<Candidate>)
    ensures r.Some? ==> r.value in candidates && r.value.kind == kind
    ensures r.None? <==> forall c :: c in candidates ==> c.kind != kind
    ensures r.Some? ==> forall c :: c in candidates && c.kind == kind ==> c.confidence <= r.value.confidence
  {
    if candidates == [] then None
    else
      var n := |candidates| - 1;
      assert candidates == candidates[..n] + [candidates[n]];
      var best := BestMatch(candidates[..n], kind);
      if candidates[n].kind == kind
         && (best.None? || candidates[n].confidence > best.value.confidence) then Some(candidates[n])
      else best
  }

  function ItemOf(c: Candidate, now: real): Item {
    Item(now, c.box, c.confidence, (c.box.x2 - c.box.x1) * (c.box.y2 - c.box.y1))
  }

  /** Appending to a history of bounded length drops the oldest item of a full one. */
  function Appended(history: seq<Item>, item: Item): seq<Item> {
    if |history| < MAX_HISTORY then history + [item] else history[1..] + [item]
  }

  predicate InWindow(item: Item, now: real, window: real) { now - item.timestamp <= window }

  function Pruned(history: seq<Item>, now: real, window: real): seq<Item> {
    if history == [] || InWindow(history[0], now, window) then history
    else Pruned(history[1..], now, window)
  }

  /** The history after a frame with the given detection, if any. */
  function AfterFrame(history: seq<Item>, item: Option<Item>, now: real, window: real): seq<Item> {
    Pruned(if item.Some? then Appended(history, item.value) else history, now, window)
  }

  function MatchedItem(candidates: seq<Candidate>, kind: Kind, now: real): Option<Item> {
    var best := BestMatch(candidates, kind);
    if best.Some? then Some(ItemOf(best.value, now)) else None
  }

  /** A puff of smoke that is neither lasting nor growing. */
  predicate Dissipating(history: seq<Item>, now: real, rules: Rules)
    requires history != []
  {
    && now - history[0].timestamp < rules.smokePersistence
    && (history[|history| - 1].area as real) < (history[0].area as real) * 0.85
  }

  function Verdict(key: Key, history: seq<Item>, now: real, rules: Rules)
    : Result<Option<Event>, DetectorError>
  {
    if |history| < rules.minFrames then Success(None)
    else if history == [] then Failure(IndexError)
    else if key.kind.Smoke? && Dissipating(history, now, rules) then Success(None)
    else
      var latest := history[|history| - 1];
      var status := if |history| >= 10 || latest.confidence >= 0.80 then Confirmed else Verifying;
      Success(Some(Event(key, latest.confidence, |history|, latest.box, status)))
  }

  // ---------------------------------------------------------------------------------------
  // One call, for all cameras
  // ---------------------------------------------------------------------------------------

  type Histories = Key -> seq<Item>

  datatype Call =
    | Look(camera: string, candidates: seq<Candidate>, now: real, rules: Rules)
    | Reset(camera: string)

  function LookedAt(h: Histories, look: Call, kind: Kind): seq<Item>
    requires look.Look?
  {
    AfterFrame(h(Key(look.camera, kind)), MatchedItem(look.candidates, kind, look.now), look.now, look.rules.window)
  }

  predicate FireRaises(h: Histories, look: Call)
    requires look.Look?
  {
    Verdict(Key(look.camera, Fire), LookedAt(h, look, Fire), look.now, look.rules).Failure?
  }

  /** A frame touches the two histories of its camera, fire first; if fire raises, smoke stays. */
  function AfterCall(h: Histories, call: Call): Histories {
    match call
    case Look(camera, _, _, _) =>
      (k: Key) =>
        if k.camera != camera || (k.kind == Smoke && FireRaises(h, call)) then h(k) else LookedAt(h, call, k.kind)
    case Reset(camera) => (k: Key) => if k.camera == camera then [] else h(k)
  }

  // ---------------------------------------------------------------------------------------
  // The detector
  // ---------------------------------------------------------------------------------------

  class FireSmokeDetector {
    var histories: map<Key, seq<Item>>

    constructor ()
      ensures histories == map[]
    {
      histories := map[];
    }

    function History(key: Key): seq<Item>
      reads this
    {
      if key in histories then histories[key] else []
    }

    function View(): Histories
      reads this
    {
      var h := histories;
      (k: Key) => if k in h then h[k] else []
    }

    /** The part of a frame that concerns one kind of event. */
    method ProcessKind(key: Key, candidates: seq<Candidate>, now: real, rules: Rules)
      returns (r: Result<Option<Event>, DetectorError>)
      modifies this
      ensures History(key)
           == AfterFrame(old(History(key)), MatchedItem(candidates, key.kind, now), now, rules.window)
      ensures forall k: Key :: k != key ==> History(k) == old(History(k))
      ensures r == Verdict(key, History(key), now, rules)
    {
      var history := History(key);
      var matching := BestMatch(candidates, key.kind);
      if matching.Some? {
        var c := matching.value;
        var area := (c.box.x2 - c.box.x1) * (c.box.y2 - c.box.y1);
        if |history| >= MAX_HISTORY {
          history := history[1..];
        }
        history := history + [Item(now, c.box, c.confidence, area)];
      }
      ghost var appended := history;
      while history != [] && now - history[0].timestamp > rules.window
        invariant Pruned(history, now, rules.window) == Pruned(appended, now, rules.window)
        decreases |history|
      {
        history := history[1..];
      }
      histories := histories[key := history];
      if |history| < rules.minFrames {
        return Success(None);
      }
      if history == [] {
        return Failure(IndexError);
      }
      var oldest, latest := history[0], history[|history| - 1];
      if key.kind == Smoke {
        var duration := now - oldest.timestamp;
        var expanding := latest.area as real >= (oldest.area as real) * 0.85;
        if duration < rules.smokePersistence && !expanding {
          return Success(None);
        }
      }
      var status := if |history| >= 10 || latest.confidence >= 0.80 then Confirmed else Verifying;
      r := Success(Some(Event(key, latest.confidence, |history|, latest.box, status)));
    }

    /** A frame: fire first, then smoke. If fire raises, smoke is not looked at. */
    method ProcessFrame(camera: string, candidates: seq<Candidate>, now: real, rules: Rules)
      returns (r: Result<seq<Event>, DetectorError>)
      modifies this
      ensures forall k :: View()(k) == AfterCall(old(View()), Look(camera, candidates, now, rules))(k)
      ensures var fire, smoke := Key(camera, Fire), Key(camera, Smoke);
              r == if FireRaises(old(View()), Look(camera, candidates, now, rules)) then Failure(IndexError)
                   else Both(Verdict(fire, View()(fire), now, rules), Verdict(smoke, View()(smoke), now, rules))
    {
      hide AfterFrame, Verdict, BestMatch;
      assert forall k: Key :: k.camera == camera && k.kind == Fire ==> k == Key(camera, Fire);
      assert forall k: Key :: k.camera == camera && k.kind == Smoke ==> k == Key(camera, Smoke);
      ghost var h, look := View(), Look(camera, candidates, now, rules);
      assert forall k :: h(k) == History(k);
      var fire := ProcessKind(Key(camera, Fire), candidates, now, rules);
      assert History(Key(camera, Fire)) == LookedAt(h, look, Fire);
      if fire.Failure? {
        assert fire.error.IndexError?;
        return Failure(fire.error);
      }
      var smoke := ProcessKind(Key(camera, Smoke), candidates, now, rules);
      r := Both(fire, smoke);
    }

    method ResetCamera(camera: string)
      modifies this
      ensures forall k :: View()(k) == AfterCall(old(View()), Reset(camera))(k)
    {
      histories := histories - {Key(camera, Fire), Key(camera, Smoke)};
      forall k: Key | k.camera == camera ensures k !in histories {
        match k.kind
        case Fire => assert k == Key(camera, Fire);
        case Smoke => assert k == Key(camera, Smoke);
      }
    }
  }

  function OneOrNone(e: Option<Event>): seq<Event> { if e.Some? then [e.value] else [] }

  function Both(fire: Result<Option<Event>, DetectorError>, smoke: Result<Option<Event>, DetectorError>)
    : Result<seq<Event>, DetectorError>
  {
    if fire.Failure? || smoke.Failure? then Failure(IndexError)
    else Success(OneOrNone(fire.value) + OneOrNone(smoke.value))
  }

  /** A frame reports fire before smoke, and nothing if either raises. */
  lemma FireBeforeSmoke(f: Event, s: Event)
    ensures Both(Success(Some(f)), Success(Some(s))) == Success([f, s])
    ensures Both(Success(Some(f)), Success(None)) == Success([f])
    ensures Both(Success(None), Success(Some(s))) == Success([s])
    ensures Both(Success(None), Success(None)) == Success([])
    ensures Both(Success(Some(f)), Failure(IndexError)) == Failure(IndexError)
  {
    var none: seq<Event> := [];
    assert [f] + [s] == [f, s] && [f] + none == [f] && none + [s] == [s] && none + none == none;
  }

  // ---------------------------------------------------------------------------------------
  // The history is a window onto the full detection log
  // ---------------------------------------------------------------------------------------

  /** What one camera and kind sees of a frame: its time and its best detection. */
  datatype Frame = Frame(now: real, item: Option<Item>)

  function Now(frames: seq<Frame>): real
    requires frames != []
  {
    frames[|frames| - 1].now
  }

  predicate InTimeOrder(frames: seq<Frame>) {
    && (forall i, j :: 0 <= i < j < |frames| ==> frames[i].now <= frames[j].now)
    && (forall i :: 0 <= i < |frames| && frames[i].item.Some? ==> frames[i].item.value.timestamp == frames[i].now)
  }

  function HistoryAfter(frames: seq<Frame>, window: real): seq<Item> {
    if frames == [] then []
    else
      var n := |frames| - 1;
      AfterFrame(HistoryAfter(frames[..n], window), frames[n].item, frames[n].now, window)
  }

  /** Every detection ever made, in order. */
  function Log(frames: seq<Frame>): seq<Item> {
    if frames == [] then []
    else
      var n := |frames| - 1;
      Log(frames[..n]) + if frames[n].item.Some? then [frames[n].item.value] else []
  }

  predicate AllInWindow(items: seq<Item>, now: real, window: real) {
    forall i :: 0 <= i < |items| ==> InWindow(items[i], now, window)
  }

  /** The suffix of the log that starts at `k` is short enough and within the window. */
  predicate Fits(log: seq<Item>, k: nat, now: real, window: real)
    requires k <= |log|
  {
    |log| - k <= MAX_HISTORY && AllInWindow(log[k..], now, window)
  }

  /** Where the window starts: the suffix fits and the item before it is too much or too old. */
  ghost predicate StartsAt(log: seq<Item>, k: nat, now: real, window: real) {
    && k <= |log| && Fits(log, k, now, window)
    && (k > 0 ==> |log| - k == MAX_HISTORY || !InWindow(log[k - 1], now, window))
  }

  predicate Sorted(items: seq<Item>, now: real) {
    && (forall i, j :: 0 <= i < j < |items| ==> items[i].timestamp <= items[j].timestamp)
    && (forall i :: 0 <= i < |items| ==> items[i].timestamp <= now)
  }

  lemma {:induction false} LogIsSorted(frames: seq<Frame>, now: real)
    requires InTimeOrder(frames)
    requires forall i :: 0 <= i < |frames| ==> frames[i].now <= now
    ensures Sorted(Log(frames), now)
  {
    if frames != [] {
      var n := |frames| - 1;
      LogIsSorted(frames[..n], frames[n].now);
    }
  }

  lemma {:induction false} PruneFrom(log: seq<Item>, k: nat, now: real, window: real) returns (j: nat)
    requires k <= |log| && Sorted(log, now)
    ensures k <= j <= |log| && Pruned(log[k..], now, window) == log[j..]
    ensures AllInWindow(log[j..], now, window)
    ensures j > k ==> !InWindow(log[j - 1], now, window)
    decreases |log| - k
  {
    if k == |log| || InWindow(log[k], now, window) {
      j := k;
    } else {
      assert log[k..][1..] == log[k + 1..];
      j := PruneFrom(log, k + 1, now, window);
    }
  }

  /** Appending to a suffix of the log gives a suffix of the longer log. */
  lemma AppendToSuffix(log: seq<Item>, start: nat, item: Item) returns (next: nat)
    requires start <= |log| <= start + MAX_HISTORY
    ensures next == if |log| - start < MAX_HISTORY then start else start + 1
    ensures Appended(log[start..], item) == (log + [item])[next..]
  {
    if |log| - start < MAX_HISTORY {
      next := start;
      assert log[start..] + [item] == (log + [item])[start..];
    } else {
      next := start + 1;
      assert log[start..][1..] + [item] == (log + [item])[start + 1..];
    }
  }

  lemma {:induction false} HistoryStart(frames: seq<Frame>, window: real) returns (k: nat)
    requires InTimeOrder(frames) && frames != []
    ensures StartsAt(Log(frames), k, Now(frames), window)
    ensures HistoryAfter(frames, window) == Log(frames)[k..]
  {
    var n := |frames| - 1;
    var before, log, now := Log(frames[..n]), Log(frames), frames[n].now;
    var start := 0;
    if n > 0 {
      start := HistoryStart(frames[..n], window);
    }
    assert HistoryAfter(frames[..n], window) == before[start..];
    LogIsSorted(frames, now);
    if frames[n].item.Some? {
      start := AppendToSuffix(before, start, frames[n].item.value);
    } else {
      assert log == before;
    }
    assert HistoryAfter(frames, window) == Pruned(log[start..], now, window);
    k := PruneFrom(log, start, now, window);
  }

  /** With times that never go back and a constant window, the history after every frame is the
      longest suffix of at most 30 entries of the detection log that lies within the window. */
  lemma HistoryIsLongestSuffix(frames: seq<Frame>, window: real) returns (k: nat)
    requires InTimeOrder(frames) && frames != []
    ensures k <= |Log(frames)| && HistoryAfter(frames, window) == Log(frames)[k..]
    ensures Fits(Log(frames), k, Now(frames), window)
    ensures forall j :: 0 <= j < k ==> !Fits(Log(frames), j, Now(frames), window)
  {
    k := HistoryStart(frames, window);
    var log, now := Log(frames), Now(frames);
    forall j | 0 <= j < k ensures !Fits(log, j, now, window) {
      assert log[j..][k - 1 - j] == log[k - 1];
    }
  }

  /** An event is backed by at least `minFrames` detections of the log inside the window, and no
      event is ever emitted when more frames are demanded than the history can hold. */
  lemma EventsAreBacked(frames: seq<Frame>, key: Key, rules: Rules)
    requires InTimeOrder(frames) && frames != []
    ensures var now := Now(frames);
            var verdict := Verdict(key, HistoryAfter(frames, rules.window), now, rules);
            verdict.Success? && verdict.value.Some? ==>
              exists k :: && 0 <= k < |Log(frames)| && |Log(frames)| - k >= rules.minFrames
                          && verdict.value.value.confirmedFrames == |Log(frames)| - k
                          && Fits(Log(frames), k, now, rules.window)
    ensures rules.minFrames > MAX_HISTORY ==>
              Verdict(key, HistoryAfter(frames, rules.window), Now(frames), rules) == Success(None)
  {
    var k := HistoryIsLongestSuffix(frames, rules.window);
    assert |HistoryAfter(frames, rules.window)| == |Log(frames)| - k;
  }

  /** Processing raises exactly when the rules ask for no frames at all and no detection of the log
      lies within the window. */
  lemma RaisesExactly(frames: seq<Frame>, key: Key, rules: Rules)
    requires InTimeOrder(frames) && frames != []
    ensures Verdict(key, HistoryAfter(frames, rules.window), Now(frames), rules).Failure?
       <==> rules.minFrames <= 0
            && forall i :: 0 <= i < |Log(frames)| ==>
                 !InWindow(Log(frames)[i], Now(frames), rules.window)
  {
    hide HistoryAfter, Log, Dissipating;
    var k := HistoryIsLongestSuffix(frames, rules.window);
    var log, now := Log(frames), Now(frames);
    LogIsSorted(frames, now);
    if k == |log| {
      if log != [] {
        var last := |log| - 1;
        assert !Fits(log, last, now, rules.window) && log[last..] == [log[last]];
        forall i | 0 <= i < |log| ensures !InWindow(log[i], now, rules.window) {
          assert log[i].timestamp <= log[last].timestamp;
        }
      }
    } else {
      assert log[k..][0] == log[k];
    }
  }

  /** An event is raised exactly when there are enough detections of the log within the window, of which
      30 are kept, and, for smoke, when it has lasted long enough or has not shrunk below 85 percent of its
      first size. It reports the latest detection and the number kept, and is confirmed by ten of them or
      by a confidence of 0.8. */
  lemma EventsExactly(frames: seq<Frame>, key: Key, rules: Rules) returns (k: nat)
    requires InTimeOrder(frames) && frames != []
    ensures var log, now := Log(frames), Now(frames);
            && k <= |log| && |log| - k <= 30
            && (forall i :: k <= i < |log| ==> now - log[i].timestamp <= rules.window)
            && (k > 0 ==> |log| - k == 30 || now - log[k - 1].timestamp > rules.window)
    ensures var log, now := Log(frames), Now(frames);
            var verdict := Verdict(key, HistoryAfter(frames, rules.window), now, rules);
            if |log| == k then verdict == if rules.minFrames > 0 then Success(None) else Failure(IndexError)
            else if |log| - k >= rules.minFrames
                    && (key.kind == Fire || now - log[k].timestamp >= rules.smokePersistence
                        || (log[|log| - 1].area as real) >= (log[k].area as real) * 0.85)
            then
              var latest := log[|log| - 1];
              var status := if |log| - k < 10 && latest.confidence < 0.8 then Verifying else Confirmed;
              verdict == Success(Some(Event(key, latest.confidence, |log| - k, latest.box, status)))
            else verdict == Success(None)
  {
    hide HistoryAfter, Log;
    k := HistoryIsLongestSuffix(frames, rules.window);
    var log, now := Log(frames), Now(frames);
    forall i | k <= i < |log| ensures now - log[i].timestamp <= rules.window {
      assert InWindow(log[k..][i - k], now, rules.window);
    }
    if k > 0 && |log| - k < 30 {
      assert !Fits(log, k - 1, now, rules.window);
      assert log[k - 1..] == [log[k - 1]] + log[k..];
    }
  }

  /** What a frame contributes: nothing without a candidate of the kind, and otherwise the first of the most
      confident ones, at the time of the frame, with the area of its box. */
  lemma {:induction false} DetectionMeaning(candidates: seq<Candidate>, kind: Kind, now: real)
    ensures MatchedItem(candidates, kind, now).None? <==> forall c :: c in candidates ==> c.kind != kind
    ensures MatchedItem(candidates, kind, now).Some? ==>
              exists i :: FirstOfBest(candidates, kind, i)
                          && var c := candidates[i];
                             MatchedItem(candidates, kind, now).value
                             == Item(now, c.box, c.confidence, (c.box.x2 - c.box.x1) * (c.box.y2 - c.box.y1))
  {
    var best := BestMatch(candidates, kind);
    if best.Some? {
      var i := BestIsFirst(candidates, kind);
      assert FirstOfBest(candidates, kind, i);
    }
  }

  ghost predicate FirstOfBest(candidates: seq<Candidate>, kind: Kind, i: int) {
    && 0 <= i < |candidates| && candidates[i].kind == kind
    && (forall j :: 0 <= j < i && candidates[j].kind == kind ==> candidates[j].confidence < candidates[i].confidence)
    && (forall j :: i < j < |candidates| && candidates[j].kind == kind ==>
          candidates[j].confidence <= candidates[i].confidence)
  }

  lemma {:induction false} BestIsFirst(candidates: seq<Candidate>, kind: Kind) returns (i: int)
    requires BestMatch(candidates, kind).Some?
    ensures FirstOfBest(candidates, kind, i) && candidates[i] == BestMatch(candidates, kind).value
  {
    var n := |candidates| - 1;
    var earlier := BestMatch(candidates[..n], kind);
    assert candidates == candidates[..n] + [candidates[n]];
    if candidates[n].kind == kind && (earlier.None? || candidates[n].confidence > earlier.value.confidence) {
      i := n;
      forall j | 0 <= j < n && candidates[j].kind == kind ensures candidates[j].confidence < candidates[n].confidence {
        assert candidates[j] in candidates[..n];
      }
    } else {
      i := BestIsFirst(candidates[..n], kind);
    }
  }

  // ---------------------------------------------------------------------------------------
  // Runs of all cameras
  // ---------------------------------------------------------------------------------------

  function HistoriesAfter(calls: seq<Call>): Histories {
    if calls == [] then (k: Key) => []
    else AfterCall(HistoriesAfter(calls[..|calls| - 1]), calls[|calls| - 1])
  }

  /** The frames that count for one camera and kind: those since its last reset, for smoke without the
      ones in which fire raised. */
  function FramesFor(calls: seq<Call>, key: Key): seq<Frame> {
    if calls == [] then []
    else
      var n := |calls| - 1;
      var before := FramesFor(calls[..n], key);
      match calls[n]
      case Reset(camera) => if camera == key.camera then [] else before
      case Look(camera, candidates, now, _) =>
        if camera != key.camera || (key.kind == Smoke && FireRaises(HistoriesAfter(calls[..n]), calls[n])) then before
        else before + [Frame(now, MatchedItem(candidates, key.kind, now))]
  }

  /** The camera is always looked at with the same window, and its times never go back. */
  ghost predicate SteadyCamera(calls: seq<Call>, camera: string, window: real) {
    && (forall i :: 0 <= i < |calls| && calls[i].Look? && calls[i].camera == camera ==> calls[i].rules.window == window)
    && (forall i, j ::
          0 <= i < j < |calls| && calls[i].Look? && calls[j].Look? && calls[i].camera == calls[j].camera == camera ==>
            calls[i].now <= calls[j].now)
  }

  /** However frames and resets of many cameras interleave, each history depends on the frames that
      count for it alone. */
  lemma {:induction false} CamerasAreIndependent(calls: seq<Call>, key: Key, window: real)
    requires SteadyCamera(calls, key.camera, window)
    ensures HistoriesAfter(calls)(key) == HistoryAfter(FramesFor(calls, key), window)
  {
    hide AfterFrame, FireRaises;
    if calls != [] {
      var n := |calls| - 1;
      var before := FramesFor(calls[..n], key);
      CamerasAreIndependent(calls[..n], key, window);
      if FramesFor(calls, key) != before && calls[n].Look? {
        var frames := FramesFor(calls, key);
        assert frames[..|frames| - 1] == before;
      }
    }
  }

  lemma {:induction false} FramesInTimeOrder(calls: seq<Call>, key: Key, window: real, now: real)
    requires SteadyCamera(calls, key.camera, window)
    requires forall i :: 0 <= i < |calls| && calls[i].Look? && calls[i].camera == key.camera ==> calls[i].now <= now
    ensures InTimeOrder(FramesFor(calls, key))
    ensures forall i :: 0 <= i < |FramesFor(calls, key)| ==> FramesFor(calls, key)[i].now <= now
  {
    hide AfterFrame, FireRaises, BestMatch;
    if calls != [] {
      var n := |calls| - 1;
      FramesInTimeOrder(calls[..n], key, window,
                        if calls[n].Look? && calls[n].camera == key.camera then calls[n].now else now);
    }
  }

  lemma LatestLook(calls: seq<Call>, camera: string) returns (now: real)
    ensures forall i :: 0 <= i < |calls| && calls[i].Look? && calls[i].camera == camera ==> calls[i].now <= now
  {
    now := 0.0;
    for n := 0 to |calls|
      invariant forall i :: 0 <= i < n && calls[i].Look? && calls[i].camera == camera ==> calls[i].now <= now
    {
      if calls[n].Look? && calls[n].now > now {
        now := calls[n].now;
      }
    }
  }

  /** On every run of frames and resets of any cameras, the history of a camera and kind is the longest
      suffix of at most 30 of its counting detections within the window of its last counting frame. */
  lemma EveryCameraKeepsItsWindow(calls: seq<Call>, key: Key, window: real) returns (k: nat)
    requires SteadyCamera(calls, key.camera, window)
    ensures FramesFor(calls, key) == [] ==> HistoriesAfter(calls)(key) == []
    ensures FramesFor(calls, key) != [] ==>
              var frames := FramesFor(calls, key);
              && k <= |Log(frames)| && HistoriesAfter(calls)(key) == Log(frames)[k..]
              && Fits(Log(frames), k, Now(frames), window)
              && forall j :: 0 <= j < k ==> !Fits(Log(frames), j, Now(frames), window)
  {
    hide FramesFor, HistoriesAfter;
    CamerasAreIndependent(calls, key, window);
    var now := LatestLook(calls, key.camera);
    FramesInTimeOrder(calls, key, window, now);
    k := 0;
    if FramesFor(calls, key) != [] {
      k := HistoryIsLongestSuffix(FramesFor(calls, key), window);
    }
  }
}
