/** Voting for a plate over a sliding window of frames (backend/app/alpr/multi_frame_voter.py). */
module PlateVoter {
  import opened Common

  const MIN_WINDOW_SIZE := 2
  const MAX_WINDOW_SIZE := 30

  datatype Entry = Entry(plate: string, confidence: real, timestamp: real)

  datatype VoteResult = VoteResult(plate: string, confidence: real, frequency: nat, totalFrames: nat)

  /** A number that arrives from outside and need not be finite. */
  datatype Number = Finite(value: real) | NotFinite

  datatype VoterError = BadWindowSize | ConfidenceNotFinite | ConfidenceOutOfRange | TimestampNotFinite

  // ---------------------------------------------------------------------------------------
  // The window
  // ---------------------------------------------------------------------------------------

  /** Appending to a buffer of bounded length drops the oldest entry of a full buffer. */
  function Pushed(buffer: seq<Entry>, e: Entry, size: nat): seq<Entry>
    requires size > 0
  {
    if |buffer| < size then buffer + [e] else buffer[1..] + [e]
  }

  function PushedAll(buffer: seq<Entry>, log: seq<Entry>, size: nat): seq<Entry>
    requires size > 0
  {
    if log == [] then buffer
    else Pushed(PushedAll(buffer, log[..|log| - 1], size), log[|log| - 1], size)
  }

  function LastN(log: seq<Entry>, n: nat): seq<Entry> {
    if |log| <= n then log else log[|log| - n..]
  }

  /** The buffer is always the last `size` of the entries pushed since it was empty. */
  lemma {:induction false} BufferIsLastEntries(log: seq<Entry>, size: nat)
    requires size > 0
    ensures PushedAll([], log, size) == LastN(log, size)
  {
    if log != [] {
      BufferIsLastEntries(log[..|log| - 1], size);
    }
  }

  // ---------------------------------------------------------------------------------------
  // The vote
  // ---------------------------------------------------------------------------------------

  function HasPlate(plate: string): Entry -> bool { (e: Entry) => e.plate == plate }

  function Frequency(buffer: seq<Entry>, plate: string): nat { Count(buffer, HasPlate(plate)) }

  predicate Seen(buffer: seq<Entry>, plate: string) {
    exists i :: 0 <= i < |buffer| && buffer[i].plate == plate
  }

  /** The highest confidence recorded for a plate. */
  function BestConfidence(buffer: seq<Entry>, plate: string): real
    requires Seen(buffer, plate)
  {
    var n := |buffer| - 1;
    if !Seen(buffer[..n], plate) then
      assert forall i :: 0 <= i < n ==> buffer[..n][i] == buffer[i];
      buffer[n].confidence
    else
      var best := BestConfidence(buffer[..n], plate);
      if buffer[n].plate == plate && buffer[n].confidence > best then buffer[n].confidence else best
  }

  /** The position of the first entry for a plate, or the length if there is none. */
  function FirstSeen(buffer: seq<Entry>, plate: string): nat {
    if buffer == [] || buffer[0].plate == plate then 0 else 1 + FirstSeen(buffer[1..], plate)
  }

  /** The plates in order of first appearance. */
  function Distinct(buffer: seq<Entry>): seq<string> {
    if buffer == [] then []
    else
      var n := |buffer| - 1;
      Distinct(buffer[..n]) + if Seen(buffer[..n], buffer[n].plate) then [] else [buffer[n].plate]
  }

  function MaxFrequency(buffer: seq<Entry>, plates: seq<string>): nat {
    if plates == [] then 0
    else
      var rest := MaxFrequency(buffer, plates[1..]);
      var first := Frequency(buffer, plates[0]);
      if first > rest then first else rest
  }

  function WithFrequency(buffer: seq<Entry>, plates: seq<string>, f: nat): seq<string> {
    if plates == [] then []
    else (if Frequency(buffer, plates[0]) == f then [plates[0]] else [])
         + WithFrequency(buffer, plates[1..], f)
  }

  /** The position of the first of the largest scores. */
  function FirstMax(scores: seq<real>): (r: nat)
    requires scores != []
    ensures r < |scores|
    ensures forall k :: 0 <= k < |scores| ==> scores[k] <= scores[r]
    ensures forall k :: 0 <= k < r ==> scores[k] < scores[r]
  {
    var n := |scores| - 1;
    if n == 0 then 0
    else
      var best := FirstMax(scores[..n]);
      if scores[n] > scores[best] then n else best
  }

  function BestConfidences(buffer: seq<Entry>, plates: seq<string>): seq<real>
    requires forall p :: p in plates ==> Seen(buffer, p)
  {
    seq(|plates|, i requires 0 <= i < |plates| => BestConfidence(buffer, plates[i]))
  }

  function Vote(buffer: seq<Entry>): Option<VoteResult> {
    if buffer == [] then None
    else
      var plates := Distinct(buffer);
      var candidates := WithFrequency(buffer, plates, MaxFrequency(buffer, plates));
      CandidatesExist(buffer);
      var winner := candidates[FirstMax(BestConfidences(buffer, candidates))];
      Some(VoteResult(winner, BestConfidence(buffer, winner), Frequency(buffer, winner), |buffer|))
  }

  function CeilHalf(n: nat): nat { (n + 1) / 2 }

  predicate Stable(buffer: seq<Entry>, size: nat) {
    buffer != [] && MaxFrequency(buffer, Distinct(buffer)) >= CeilHalf(size)
  }

  // ---------------------------------------------------------------------------------------
  // The voter object
  // ---------------------------------------------------------------------------------------

  class MultiFrameVoter {
    const windowSize: nat
    var buffer: seq<Entry>

    ghost predicate Valid()
      reads this
    {
      MIN_WINDOW_SIZE <= windowSize <= MAX_WINDOW_SIZE && |buffer| <= windowSize
    }

    constructor (windowSize: nat)
      requires MIN_WINDOW_SIZE <= windowSize <= MAX_WINDOW_SIZE
      ensures Valid() && this.windowSize == windowSize && buffer == []
    {
      this.windowSize := windowSize;
      buffer := [];
    }

    static method Create(windowSize: int) returns (r: Result<MultiFrameVoter, VoterError>)
      ensures r.Success? <==> MIN_WINDOW_SIZE <= windowSize <= MAX_WINDOW_SIZE
      ensures r.Success? ==> fresh(r.value) && r.value.Valid()
                             && r.value.windowSize == windowSize && r.value.buffer == []
      ensures r.Failure? ==> r.error == BadWindowSize
    {
      if !(MIN_WINDOW_SIZE <= windowSize <= MAX_WINDOW_SIZE) {
        return Failure(BadWindowSize);
      }
      var voter := new MultiFrameVoter(windowSize);
      r := Success(voter);
    }

    /** Adds a detection. A plate that is missing or blank is ignored before anything else is
        checked; a bad number is refused and leaves the buffer as it was. */
    method Push(strip: string -> string, plate: Option<string>, confidence: Number, timestamp: Number)
      returns (r: Result<bool, VoterError>)
      requires Valid()
      modifies this
      ensures Valid()
      ensures r == Success(false) <==> plate.None? || strip(plate.value) == ""
      ensures r.Success? && r.value ==>
                confidence.Finite? && 0.0 <= confidence.value <= 1.0 && timestamp.Finite?
      ensures r == Failure(ConfidenceNotFinite) <==> r != Success(false) && confidence.NotFinite?
      ensures r == Failure(ConfidenceOutOfRange) ==>
                confidence.Finite? && !(0.0 <= confidence.value <= 1.0)
      ensures r == Failure(TimestampNotFinite) ==> timestamp.NotFinite?
      ensures buffer == if r == Success(true)
                        then Pushed(old(buffer),
                                    Entry(strip(plate.value), confidence.value, timestamp.value), windowSize)
                        else old(buffer)
    {
      if plate.None? || strip(plate.value) == "" {
        return Success(false);
      }
      if confidence.NotFinite? {
        return Failure(ConfidenceNotFinite);
      }
      if !(0.0 <= confidence.value <= 1.0) {
        return Failure(ConfidenceOutOfRange);
      }
      if timestamp.NotFinite? {
        return Failure(TimestampNotFinite);
      }
      var e := Entry(strip(plate.value), confidence.value, timestamp.value);
      if |buffer| == windowSize {
        buffer := buffer[1..];
      }
      buffer := buffer + [e];
      r := Success(true);
    }

    /** The winner of the current window, if there is any detection in it. */
    function CurrentVote(): Option<VoteResult>
      reads this
    {
      Vote(buffer)
    }

    predicate IsStable()
      reads this
    {
      Stable(buffer, windowSize)
    }

    method Reset()
      requires Valid()
      modifies this
      ensures Valid() && buffer == []
    {
      buffer := [];
    }
  }

  // ---------------------------------------------------------------------------------------
  // What the vote means
  // ---------------------------------------------------------------------------------------

  lemma {:induction false} DistinctIsSeen(buffer: seq<Entry>, p: string)
    ensures p in Distinct(buffer) <==> Seen(buffer, p)
  {
    if buffer != [] {
      var n := |buffer| - 1;
      DistinctIsSeen(buffer[..n], p);
      assert Seen(buffer, p) <==> Seen(buffer[..n], p) || buffer[n].plate == p by {
        assert forall i :: 0 <= i < n ==> buffer[..n][i] == buffer[i];
      }
    }
  }

  lemma {:induction false} MaxFrequencyBounds(buffer: seq<Entry>, plates: seq<string>)
    ensures forall p :: p in plates ==> Frequency(buffer, p) <= MaxFrequency(buffer, plates)
    ensures plates != [] ==>
              exists p :: p in plates && Frequency(buffer, p) == MaxFrequency(buffer, plates)
  {
    if plates != [] {
      MaxFrequencyBounds(buffer, plates[1..]);
      assert plates[0] in plates && forall p :: p in plates[1..] ==> p in plates;
      if |plates| == 1 {
        assert MaxFrequency(buffer, plates) == Frequency(buffer, plates[0]);
      }
    }
  }

  lemma {:induction false} WithFrequencyMeaning(buffer: seq<Entry>, plates: seq<string>, f: nat, p: string)
    ensures p in WithFrequency(buffer, plates, f) <==> p in plates && Frequency(buffer, p) == f
  {
    if plates != [] {
      assert plates == [plates[0]] + plates[1..];
      WithFrequencyMeaning(buffer, plates[1..], f, p);
    }
  }

  lemma CandidatesExist(buffer: seq<Entry>)
    requires buffer != []
    ensures var plates := Distinct(buffer);
            var candidates := WithFrequency(buffer, plates, MaxFrequency(buffer, plates));
            candidates != [] && forall p :: p in candidates ==> Seen(buffer, p)
  {
    var plates := Distinct(buffer);
    var top := MaxFrequency(buffer, plates);
    assert Seen(buffer, buffer[0].plate);
    DistinctIsSeen(buffer, buffer[0].plate);
    MaxFrequencyBounds(buffer, plates);
    var p :| p in plates && Frequency(buffer, p) == top;
    WithFrequencyMeaning(buffer, plates, top, p);
    forall q | q in WithFrequency(buffer, plates, top) ensures Seen(buffer, q) {
      WithFrequencyMeaning(buffer, plates, top, q);
      DistinctIsSeen(buffer, q);
    }
  }

  /** Plates listed in the order of their rank. */
  ghost predicate InOrder(plates: seq<string>, rank: string -> nat) {
    forall i, j :: 0 <= i < j < |plates| ==> rank(plates[i]) < rank(plates[j])
  }

  function FirstSeenIn(buffer: seq<Entry>): string -> nat { p => FirstSeen(buffer, p) }

  lemma {:induction false} FirstSeenBounds(buffer: seq<Entry>, p: string)
    ensures Seen(buffer, p) <==> FirstSeen(buffer, p) < |buffer|
    ensures FirstSeen(buffer, p) <= |buffer|
  {
    if buffer != [] {
      FirstSeenBounds(buffer[1..], p);
      assert Seen(buffer, p) <==> buffer[0].plate == p || Seen(buffer[1..], p) by {
        assert forall i :: 0 <= i < |buffer| - 1 ==> buffer[1..][i] == buffer[i + 1];
      }
    }
  }

  lemma {:induction false} FirstSeenAppend(buffer: seq<Entry>, e: Entry, p: string)
    ensures Seen(buffer, p) ==> FirstSeen(buffer + [e], p) == FirstSeen(buffer, p)
    ensures !Seen(buffer, p) && e.plate == p ==> FirstSeen(buffer + [e], p) == |buffer|
  {
    if buffer != [] {
      FirstSeenAppend(buffer[1..], e, p);
      assert (buffer + [e])[1..] == buffer[1..] + [e];
      assert Seen(buffer, p) <==> buffer[0].plate == p || Seen(buffer[1..], p) by {
        assert forall i :: 0 <= i < |buffer| - 1 ==> buffer[1..][i] == buffer[i + 1];
      }
    }
  }

  lemma {:induction false} DistinctInOrder(buffer: seq<Entry>)
    ensures InOrder(Distinct(buffer), FirstSeenIn(buffer))
  {
    if buffer != [] {
      var n := |buffer| - 1;
      var before, plates := Distinct(buffer[..n]), Distinct(buffer);
      DistinctInOrder(buffer[..n]);
      assert buffer == buffer[..n] + [buffer[n]];
      forall p | p in plates
        ensures FirstSeen(buffer, p) == if p in before then FirstSeen(buffer[..n], p) else n
        ensures p in before ==> FirstSeen(buffer[..n], p) < n
      {
        DistinctIsSeen(buffer[..n], p);
        FirstSeenAppend(buffer[..n], buffer[n], p);
        FirstSeenBounds(buffer[..n], p);
      }
      OrderSame(before, FirstSeenIn(buffer[..n]), FirstSeenIn(buffer));
      if !Seen(buffer[..n], buffer[n].plate) {
        DistinctIsSeen(buffer[..n], buffer[n].plate);
        OrderLast(before, buffer[n].plate, FirstSeenIn(buffer));
      }
    }
  }

  lemma OrderSame(plates: seq<string>, rank: string -> nat, rank': string -> nat)
    requires InOrder(plates, rank) && forall p :: p in plates ==> rank(p) == rank'(p)
    ensures InOrder(plates, rank')
  {
  }

  lemma OrderLast(plates: seq<string>, p: string, rank: string -> nat)
    requires InOrder(plates, rank) && forall q :: q in plates ==> rank(q) < rank(p)
    ensures InOrder(plates + [p], rank)
  {
  }

  lemma {:induction false} WithFrequencyInOrder(buffer: seq<Entry>, plates: seq<string>, f: nat,
                                                rank: string -> nat, low: nat)
    requires InOrder(plates, rank) && forall p :: p in plates ==> low <= rank(p)
    ensures InOrder(WithFrequency(buffer, plates, f), rank)
    ensures forall p :: p in WithFrequency(buffer, plates, f) ==> low <= rank(p)
  {
    if plates != [] {
      var p, rest := plates[0], plates[1..];
      forall i | 0 <= i < |rest| ensures rank(p) < rank(rest[i]) {
        assert rank(plates[0]) < rank(plates[i + 1]);
      }
      WithFrequencyInOrder(buffer, rest, f, rank, rank(p) + 1);
    }
  }

  /** A plate loses to another by frequency, then by best confidence, then by first appearance. */
  ghost predicate Beats(buffer: seq<Entry>, w: string, p: string)
    requires Seen(buffer, w) && Seen(buffer, p)
  {
    || Frequency(buffer, p) < Frequency(buffer, w)
    || (Frequency(buffer, p) == Frequency(buffer, w)
        && (|| BestConfidence(buffer, p) < BestConfidence(buffer, w)
            || (BestConfidence(buffer, p) == BestConfidence(buffer, w)
                && FirstSeen(buffer, w) < FirstSeen(buffer, p))))
  }

  /** The winner beats every other plate in the window, and is reported with its own best
      confidence and frequency. */
  lemma VoteMeaning(buffer: seq<Entry>)
    requires buffer != []
    ensures Vote(buffer).Some?
    ensures var r := Vote(buffer).value;
            && Seen(buffer, r.plate)
            && r.confidence == BestConfidence(buffer, r.plate)
            && r.frequency == Frequency(buffer, r.plate) && r.totalFrames == |buffer|
            && (forall p :: Seen(buffer, p) && p != r.plate ==> Beats(buffer, r.plate, p))
  {
    var plates := Distinct(buffer);
    var top := MaxFrequency(buffer, plates);
    var candidates := WithFrequency(buffer, plates, top);
    CandidatesExist(buffer);
    MaxFrequencyBounds(buffer, plates);
    DistinctInOrder(buffer);
    WithFrequencyInOrder(buffer, plates, top, FirstSeenIn(buffer), 0);
    var w := Vote(buffer).value.plate;
    WithFrequencyMeaning(buffer, plates, top, w);
    forall p | Seen(buffer, p) && p != w ensures Beats(buffer, w, p) {
      DistinctIsSeen(buffer, p);
      WithFrequencyMeaning(buffer, plates, top, p);
      if p in candidates {
        var k :| 0 <= k < |candidates| && candidates[k] == p;
        FirstMaxWins(buffer, candidates, k);
      }
    }
  }

  /** Among plates in order of first appearance, the first of highest confidence wins. */
  lemma FirstMaxWins(buffer: seq<Entry>, plates: seq<string>, k: nat)
    requires (forall p :: p in plates ==> Seen(buffer, p)) && k < |plates|
    requires InOrder(plates, FirstSeenIn(buffer))
    ensures var best := FirstMax(BestConfidences(buffer, plates));
            || BestConfidence(buffer, plates[k]) < BestConfidence(buffer, plates[best])
            || (BestConfidence(buffer, plates[k]) == BestConfidence(buffer, plates[best])
                && (k == best || FirstSeen(buffer, plates[best]) < FirstSeen(buffer, plates[k])))
  {
    var scores := BestConfidences(buffer, plates);
    var best := FirstMax(scores);
    assert scores[k] == BestConfidence(buffer, plates[k]);
    assert scores[best] == BestConfidence(buffer, plates[best]);
    if k > best {
      assert FirstSeenIn(buffer)(plates[best]) < FirstSeenIn(buffer)(plates[k]);
    }
  }

  // ---------------------------------------------------------------------------------------
  // How long a lead lasts, and when a stable winner is the only one
  // ---------------------------------------------------------------------------------------

  /** A plate that leads every other by more than a margin. */
  ghost predicate LeadsBy(buffer: seq<Entry>, p: string, margin: nat) {
    forall q :: q != p ==> Frequency(buffer, p) > Frequency(buffer, q) + margin
  }

  lemma FrequencyAfterPush(buffer: seq<Entry>, e: Entry, size: nat, p: string)
    requires 0 < size && |buffer| <= size
    ensures Frequency(buffer, p) - 1 <= Frequency(Pushed(buffer, e, size), p) <= Frequency(buffer, p) + 1
  {
    var has := HasPlate(p);
    CountAppend(buffer, has, e);
    if |buffer| == size {
      CountAppend(buffer[1..], has, e);
      CountDropFirst(buffer, has);
    }
  }

  lemma {:induction false} CountDropFirst(rows: seq<Entry>, has: Entry -> bool)
    requires rows != []
    ensures Count(rows, has) == Count(rows[1..], has) + if has(rows[0]) then 1 else 0
  {
    var n := |rows| - 1;
    if n > 0 {
      CountDropFirst(rows[..n], has);
      assert rows[..n][1..] == rows[1..][..n - 1];
    }
  }

  /** A lead of more than twice as many frames as are pushed survives them, and so does the win. */
  lemma {:induction false} LeadSurvives(buffer: seq<Entry>, pushes: seq<Entry>, size: nat, p: string)
    requires 0 < size && |buffer| <= size
    requires LeadsBy(buffer, p, 2 * |pushes|)
    ensures |PushedAll(buffer, pushes, size)| <= size
    ensures LeadsBy(PushedAll(buffer, pushes, size), p, 0)
    ensures Vote(PushedAll(buffer, pushes, size)).Some?
         && Vote(PushedAll(buffer, pushes, size)).value.plate == p
  {
    LeadShrinks(buffer, pushes, size, p, 2 * |pushes|);
    LeaderWins(PushedAll(buffer, pushes, size), p);
  }

  lemma {:induction false} LeadShrinks(buffer: seq<Entry>, pushes: seq<Entry>, size: nat, p: string, margin: nat)
    requires 0 < size && |buffer| <= size
    requires LeadsBy(buffer, p, margin) && margin >= 2 * |pushes|
    ensures |PushedAll(buffer, pushes, size)| <= size
    ensures LeadsBy(PushedAll(buffer, pushes, size), p, margin - 2 * |pushes|)
  {
    if pushes != [] {
      var earlier, e := pushes[..|pushes| - 1], pushes[|pushes| - 1];
      LeadShrinks(buffer, earlier, size, p, margin);
      var b := PushedAll(buffer, earlier, size);
      FrequencyAfterPush(b, e, size, p);
      forall q | q != p
        ensures Frequency(Pushed(b, e, size), p) > Frequency(Pushed(b, e, size), q) + margin - 2 * |pushes|
      {
        FrequencyAfterPush(b, e, size, q);
      }
    }
  }

  lemma LeaderWins(buffer: seq<Entry>, p: string)
    requires LeadsBy(buffer, p, 0)
    ensures Vote(buffer).Some? && Vote(buffer).value.plate == p
  {
    var other := p + "x";
    assert Frequency(buffer, p) > Frequency(buffer, other);
    var i := CountWitness(buffer, HasPlate(p));
    VoteMeaning(buffer);
    var w := Vote(buffer).value.plate;
    assert w != p ==> Beats(buffer, w, p);
  }

  /** The margin is needed: with a window of four, a lead of exactly two can be lost in one frame. */
  lemma LeadOfTwoCanBeLost(a: Entry, b: Entry)
    requires a.plate != b.plate
    ensures var buffer := [a, a, a, b];
            && Frequency(buffer, a.plate) == Frequency(buffer, b.plate) + 2
            && !LeadsBy(PushedAll(buffer, [b], 4), a.plate, 0)
  {
    var buffer, after := [a, a, a, b], [a, a, b, b];
    assert PushedAll(buffer, [b], 4) == after by {
      assert [b][..0] == [];
      assert buffer[1..] + [b] == after;
    }
    FrequencyOfFour(a, a, a, b, a.plate);
    FrequencyOfFour(a, a, a, b, b.plate);
    FrequencyOfFour(a, a, b, b, a.plate);
    FrequencyOfFour(a, a, b, b, b.plate);
  }

  lemma FrequencyOfFour(x: Entry, y: Entry, z: Entry, w: Entry, p: string)
    ensures Frequency([x, y, z, w], p)
         == (if x.plate == p then 1 else 0) + (if y.plate == p then 1 else 0)
            + (if z.plate == p then 1 else 0) + (if w.plate == p then 1 else 0)
  {
    CountAppend([], HasPlate(p), x);
    CountAppend([x], HasPlate(p), y);
    CountAppend([x, y], HasPlate(p), z);
    CountAppend([x, y, z], HasPlate(p), w);
    assert [] + [x] == [x] && [x] + [y] == [x, y];
    assert [x, y] + [z] == [x, y, z] && [x, y, z] + [w] == [x, y, z, w];
  }

  lemma {:induction false} TwoPlatesFit(buffer: seq<Entry>, p: string, q: string)
    requires p != q
    ensures Frequency(buffer, p) + Frequency(buffer, q) <= |buffer|
  {
    if buffer != [] {
      TwoPlatesFit(buffer[..|buffer| - 1], p, q);
    }
  }

  /** No two plates share the highest frequency. */
  ghost predicate OneLeader(buffer: seq<Entry>) {
    forall p, q :: Seen(buffer, p) && Seen(buffer, q) && p != q
                   && Frequency(buffer, p) == Frequency(buffer, q)
                   ==> Frequency(buffer, p) < MaxFrequency(buffer, Distinct(buffer))
  }

  lemma {:induction false} CountConstant(e: Entry, n: nat, p: Entry -> bool)
    ensures Count(seq(n, _ => e), p) == if p(e) then n else 0
  {
    if n > 0 {
      CountConstant(e, n - 1, p);
      assert seq(n, _ => e)[..n - 1] == seq(n - 1, _ => e);
    }
  }

  lemma {:induction false} CountConcat(a: seq<Entry>, b: seq<Entry>, p: Entry -> bool)
    ensures Count(a + b, p) == Count(a, p) + Count(b, p)
  {
    if b == [] {
      assert a + b == a;
    } else {
      CountConcat(a, b[..|b| - 1], p);
      assert (a + b)[..|a + b| - 1] == a + b[..|b| - 1];
    }
  }

  /** Two plates, half and half. */
  function Halves(half: nat): seq<Entry> {
    seq(half, _ => Entry("A", 0.5, 0.0)) + seq(half, _ => Entry("B", 0.5, 0.0))
  }

  lemma FrequencyInHalves(half: nat, p: string)
    ensures Frequency(Halves(half), p) == if p == "A" || p == "B" then half else 0
  {
    hide Count;
    var a, b := Entry("A", 0.5, 0.0), Entry("B", 0.5, 0.0);
    CountConcat(seq(half, _ => a), seq(half, _ => b), HasPlate(p));
    CountConstant(a, half, HasPlate(p));
    CountConstant(b, half, HasPlate(p));
  }

  /** A window of even size can be stable for two plates at once. */
  lemma EvenWindowCanTie(size: nat) returns (buffer: seq<Entry>)
    requires size >= 2 && size % 2 == 0
    ensures |buffer| == size && Stable(buffer, size) && !OneLeader(buffer)
  {
    hide Frequency, Distinct, MaxFrequency;
    var half := size / 2;
    buffer := Halves(half);
    forall p ensures Frequency(buffer, p) == if p == "A" || p == "B" then half else 0 {
      FrequencyInHalves(half, p);
    }
    assert buffer[0].plate == "A" && buffer[half].plate == "B";
    assert Seen(buffer, "A") && Seen(buffer, "B");
    DistinctIsSeen(buffer, "A");
    MaxFrequencyBounds(buffer, Distinct(buffer));
    assert MaxFrequency(buffer, Distinct(buffer)) == half;
  }

  /** A window is stable exactly when some plate is in at least half as many entries as it can hold. */
  lemma StableExactly(buffer: seq<Entry>, size: nat)
    requires size > 0
    ensures Stable(buffer, size) <==> exists p :: Seen(buffer, p) && 2 * Frequency(buffer, p) >= size
  {
    hide Frequency, Distinct;
    MaxFrequencyBounds(buffer, Distinct(buffer));
    if buffer != [] {
      CandidatesExist(buffer);
      var top := MaxFrequency(buffer, Distinct(buffer));
      var p := WithFrequency(buffer, Distinct(buffer), top)[0];
      WithFrequencyMeaning(buffer, Distinct(buffer), top, p);
      DistinctIsSeen(buffer, p);
      assert Seen(buffer, p) && Frequency(buffer, p) == top;
    }
    forall p | Seen(buffer, p) ensures p in Distinct(buffer) {
      DistinctIsSeen(buffer, p);
    }
  }

  /** Stability means a unique leader, for every window content, exactly when the size is odd. */
  lemma StableIsUniqueExactly(size: nat)
    requires MIN_WINDOW_SIZE <= size
    ensures (forall buffer :: |buffer| <= size && Stable(buffer, size) ==> OneLeader(buffer))
       <==> size % 2 == 1
  {
    if size % 2 == 0 {
      var buffer := EvenWindowCanTie(size);
    } else {
      forall buffer | |buffer| <= size && Stable(buffer, size) ensures OneLeader(buffer) {
        forall p, q | Seen(buffer, p) && Seen(buffer, q) && p != q
                      && Frequency(buffer, p) == Frequency(buffer, q)
          ensures Frequency(buffer, p) < MaxFrequency(buffer, Distinct(buffer))
        {
          TwoPlatesFit(buffer, p, q);
        }
      }
    }
  }
}
