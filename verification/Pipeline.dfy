/** The client `test4` of tthreads.cpp: two one-worker pools. Track tasks wait on the future of the
    previous track task and, every fourth frame, on the future of a detect task. The pools follow the
    critical sections of `ThreadPool`. */
module Pipeline {
  import TP = ThreadPool

  /** `frames` frames; the work limits of the track pool and of the detect pool. */
  datatype Config = Config(frames: nat, trackLimit: nat, detectLimit: nat)
  {
    predicate Valid()
    {
      frames > 0 && trackLimit > 0 && detectLimit > 0
    }
  }

  datatype Main =
    | EnqDet(i: nat) | FullDet(i: nat) | OweDet(i: nat)
    | EnqTrack(i: nat) | FullTrack(i: nat) | OweTrack(i: nat)
    | WaitLast
    | StopTrack | WakeTrack | JoinTrack
    | StopDet | WakeDet | JoinDet | Done

  datatype Tracker = TIdle | TAsleep | WaitPrev(i: nat) | WaitDet(i: nat) | Body(i: nat) | TExited

  datatype Detector = DIdle | DAsleep | Detect(i: nat) | DExited

  /** One line of the track log: the frame and the tracker's own counter. */
  datatype Entry = Entry(fid: nat, id: nat)

  datatype State = State(main: Main, track: TP.Monitor, detect: TP.Monitor, tw: Tracker, dw: Detector,
                         id: nat, trackReady: set<nat>, detectReady: set<nat>,
                         log: seq<Entry>, detected: seq<nat>)

  datatype Event = MainStep | TrackStep | DetectStep | WakeMain | WakeTracker | WakeDetector

  /** The head of the enqueueing loop. */
  function Frame(c: Config, i: nat): Main
  {
    if i >= c.frames then WaitLast else if i % 4 == 0 then EnqDet(i) else EnqTrack(i)
  }

  function NotifyTracker(tw: Tracker): Tracker
  {
    if tw == TAsleep then TIdle else tw
  }

  function NotifyDetector(dw: Detector): Detector
  {
    if dw == DAsleep then DIdle else dw
  }

  predicate Spurious(e: Event)
  {
    e == WakeMain || e == WakeTracker || e == WakeDetector
  }

  predicate Enabled(c: Config, s: State, e: Event)
  {
    match e
    case MainStep =>
      (match s.main
       case FullDet(_) | FullTrack(_) | Done => false
       case WaitLast => c.frames > 0 && c.frames - 1 in s.trackReady
       case JoinTrack => s.tw == TExited
       case JoinDet => s.dw == DExited
       case _ => true)
    case TrackStep =>
      (match s.tw
       case TAsleep | TExited => false
       case WaitPrev(i) => i == 0 || i - 1 in s.trackReady
       case WaitDet(i) => i % 4 != 0 || i in s.detectReady
       case TIdle | Body(_) => true)
    case DetectStep => s.dw == DIdle || s.dw.Detect?
    case WakeMain => s.main.FullDet? || s.main.FullTrack?
    case WakeTracker => s.tw == TAsleep
    case WakeDetector => s.dw == DAsleep
  }

  function StepMain(c: Config, s: State): State
    requires Enabled(c, s, MainStep)
  {
    match s.main
    case EnqDet(i) =>
      if TP.MayPush(s.detect, c.detectLimit)
      then s.(main := OweDet(i), detect := s.detect.(tasks := s.detect.tasks + [i]))
      else s.(main := FullDet(i))
    case OweDet(i) => s.(main := EnqTrack(i), dw := NotifyDetector(s.dw))
    case EnqTrack(i) =>
      if TP.MayPush(s.track, c.trackLimit)
      then s.(main := OweTrack(i), track := s.track.(tasks := s.track.tasks + [i]))
      else s.(main := FullTrack(i))
    case OweTrack(i) => s.(main := Frame(c, i + 1), tw := NotifyTracker(s.tw))
    case WaitLast => s.(main := StopTrack)
    case StopTrack => s.(main := WakeTrack, track := s.track.(stop := true))
    case WakeTrack => s.(main := JoinTrack, tw := NotifyTracker(s.tw))
    case JoinTrack => s.(main := StopDet)
    case StopDet => s.(main := WakeDet, detect := s.detect.(stop := true))
    case WakeDet => s.(main := JoinDet, dw := NotifyDetector(s.dw))
    case JoinDet => s.(main := Done)
    case FullDet(_) | FullTrack(_) | Done => s
  }

  function StepTrack(s: State): State
  {
    match s.tw
    case TIdle =>
      (match TP.Fetch(s.track)
       case Sleep => s.(tw := TAsleep)
       case Quit => s.(tw := TExited)
       case Take(i) =>
         s.(tw := WaitPrev(i), track := TP.AfterFetch(s.track),
            main := if s.main.FullTrack? then EnqTrack(s.main.i) else s.main))
    case WaitPrev(i) => s.(tw := WaitDet(i))
    case WaitDet(i) => s.(tw := Body(i))
    case Body(i) => s.(tw := TIdle, log := s.log + [Entry(i, s.id)], id := s.id + 1, trackReady := s.trackReady + {i})
    case TAsleep | TExited => s
  }

  function StepDetect(s: State): State
  {
    match s.dw
    case DIdle =>
      (match TP.Fetch(s.detect)
       case Sleep => s.(dw := DAsleep)
       case Quit => s.(dw := DExited)
       case Take(i) =>
         s.(dw := Detect(i), detect := TP.AfterFetch(s.detect),
            main := if s.main.FullDet? then EnqDet(s.main.i) else s.main))
    case Detect(i) => s.(dw := DIdle, detected := s.detected + [i], detectReady := s.detectReady + {i})
    case DAsleep | DExited => s
  }

  function Step(c: Config, s: State, e: Event): State
    requires Enabled(c, s, e)
  {
    match e
    case MainStep => StepMain(c, s)
    case TrackStep => StepTrack(s)
    case DetectStep => StepDetect(s)
    case WakeMain => s.(main := if s.main.FullDet? then EnqDet(s.main.i) else EnqTrack(s.main.i))
    case WakeTracker => s.(tw := TIdle)
    case WakeDetector => s.(dw := DIdle)
  }

  function Start(c: Config): State
  {
    State(Frame(c, 0), TP.Monitor([], false), TP.Monitor([], false), TIdle, DIdle, 0, {}, {}, [], [])
  }

  ghost predicate Runs(c: Config, s: State, es: seq<Event>, s': State)
    decreases |es|
  {
    if es == [] then s == s' else Enabled(c, s, es[0]) && Runs(c, Step(c, s, es[0]), es[1..], s')
  }

  ghost predicate Reachable(c: Config, s: State)
  {
    exists es: seq<Event> :: Runs(c, Start(c), es, s)
  }

  // ---------------------------------------------------------------------------
  // The invariant
  // ---------------------------------------------------------------------------

  /** Detect tasks belong to frames 0, 4, 8, ...: how many lie below frame `i`. */
  function Detects(i: nat): nat
  {
    (i + 3) / 4
  }

  /** How many track tasks, and how many detect tasks, `main` has pushed. */
  function TracksPushed(c: Config, m: Main): nat
  {
    match m
    case EnqDet(i) => i
    case FullDet(i) => i
    case OweDet(i) => i
    case EnqTrack(i) => i
    case FullTrack(i) => i
    case OweTrack(i) => i + 1
    case _ => c.frames
  }

  function DetectsPushed(c: Config, m: Main): nat
  {
    match m
    case EnqDet(i) => Detects(i)
    case FullDet(i) => Detects(i)
    case OweDet(i) => Detects(i + 1)
    case EnqTrack(i) => Detects(i + 1)
    case FullTrack(i) => Detects(i + 1)
    case OweTrack(i) => Detects(i + 1)
    case _ => Detects(c.frames)
  }

  predicate MainInShape(c: Config, m: Main)
  {
    match m
    case EnqDet(i) => i < c.frames && i % 4 == 0
    case FullDet(i) => i < c.frames && i % 4 == 0
    case OweDet(i) => i < c.frames && i % 4 == 0
    case EnqTrack(i) => i < c.frames
    case FullTrack(i) => i < c.frames
    case OweTrack(i) => i < c.frames
    case _ => true
  }

  predicate TrackStopped(m: Main)
  {
    m.WakeTrack? || m.JoinTrack? || m.StopDet? || m.WakeDet? || m.JoinDet? || m.Done?
  }

  predicate DetectStopped(m: Main)
  {
    m.WakeDet? || m.JoinDet? || m.Done?
  }

  /** Track tasks taken from the queue. */
  function TracksStarted(s: State): nat
  {
    if s.tw.WaitPrev? || s.tw.WaitDet? || s.tw.Body? then s.id + 1 else s.id
  }

  function DetectsStarted(s: State): nat
  {
    if s.dw.Detect? then |s.detected| + 1 else |s.detected|
  }

  /** The track side: tasks queue, run and finish in frame order, and `id` is the frame. */
  ghost predicate TracksInOrder(c: Config, s: State)
  {
    && TracksStarted(s) + |s.track.tasks| == TracksPushed(c, s.main)
    && (forall k | 0 <= k < |s.track.tasks| :: s.track.tasks[k] == TracksStarted(s) + k)
    && (s.tw.WaitPrev? || s.tw.WaitDet? || s.tw.Body? ==> s.tw.i == s.id)
    && |s.log| == s.id && (forall k | 0 <= k < s.id :: s.log[k] == Entry(k, k))
    && (forall i :: i in s.trackReady <==> 0 <= i < s.id)
  }

  /** The detect side, and what a track task has waited for. */
  ghost predicate DetectsInOrder(c: Config, s: State)
  {
    && DetectsStarted(s) + |s.detect.tasks| == DetectsPushed(c, s.main)
    && (forall k | 0 <= k < |s.detect.tasks| :: s.detect.tasks[k] == 4 * (DetectsStarted(s) + k))
    && (s.dw.Detect? ==> s.dw.i == 4 * |s.detected|)
    && (forall k | 0 <= k < |s.detected| :: s.detected[k] == 4 * k)
    && (forall i :: i in s.detectReady <==> 0 <= i < 4 * |s.detected| && i % 4 == 0)
    && Detects(if s.tw.Body? then s.id + 1 else s.id) <= |s.detected|
  }

  ghost predicate Awake(c: Config, s: State)
  {
    && (s.tw == TAsleep ==> |s.track.tasks| <= (if s.main.OweTrack? then 1 else 0))
    && (s.dw == DAsleep ==> |s.detect.tasks| <= (if s.main.OweDet? then 1 else 0))
    && (s.main.FullTrack? ==> |s.track.tasks| >= c.trackLimit)
    && (s.main.FullDet? ==> |s.detect.tasks| >= c.detectLimit)
    && (s.tw == TAsleep && s.track.stop ==> s.main == WakeTrack)
    && (s.dw == DAsleep && s.detect.stop ==> s.main == WakeDet)
  }

  ghost predicate Stops(c: Config, s: State)
  {
    && (s.track.stop <==> TrackStopped(s.main))
    && (s.detect.stop <==> DetectStopped(s.main))
    && (s.tw == TExited ==> s.track.stop)
    && (s.dw == DExited ==> s.detect.stop && s.detect.tasks == [])
    && (s.main == StopTrack || TrackStopped(s.main) ==> s.id == c.frames)
    && (s.main == Done ==> s.dw == DExited)
    && (s.main == StopDet || DetectStopped(s.main) ==> s.tw == TExited)
  }

  ghost predicate Inv(c: Config, s: State)
  {
    && c.Valid() && MainInShape(c, s.main)
    && TracksInOrder(c, s) && DetectsInOrder(c, s) && Awake(c, s) && Stops(c, s)
  }

  lemma StartInv(c: Config)
    requires c.Valid()
    ensures Inv(c, Start(c))
  {
  }

  lemma DetectsAt(i: nat)
    ensures Detects(i + 1) == Detects(i) + (if i % 4 == 0 then 1 else 0)
    ensures i % 4 == 0 ==> i == 4 * Detects(i)
  {
  }

  lemma MainTracksInOrder(c: Config, s: State)
    requires MainInShape(c, s.main) && TracksInOrder(c, s) && Enabled(c, s, MainStep)
    ensures TracksInOrder(c, StepMain(c, s))
  {
  }

  lemma FrameDetects(c: Config, i: nat)
    requires i < c.frames
    ensures DetectsPushed(c, Frame(c, i + 1)) == Detects(i + 1) && TracksPushed(c, Frame(c, i + 1)) == i + 1
  {
    DetectsAt(i + 1);
  }

  lemma PushDetectsInOrder(c: Config, s: State)
    requires MainInShape(c, s.main) && DetectsInOrder(c, s) && s.main.EnqDet?
    ensures DetectsInOrder(c, StepMain(c, s))
  {
    DetectsAt(s.main.i);
  }

  lemma MainDetectsInOrder(c: Config, s: State)
    requires MainInShape(c, s.main) && DetectsInOrder(c, s) && Enabled(c, s, MainStep)
    ensures DetectsInOrder(c, StepMain(c, s))
  {
    var s' := StepMain(c, s);
    if s.main.EnqDet? {
      PushDetectsInOrder(c, s);
    } else {
      if s.main.OweTrack? {
        FrameDetects(c, s.main.i);
      }
      assert DetectsPushed(c, s'.main) == DetectsPushed(c, s.main);
      assert DetectsStarted(s') == DetectsStarted(s) && s'.detect.tasks == s.detect.tasks;
    }
  }

  lemma MainAwake(c: Config, s: State)
    requires MainInShape(c, s.main) && Awake(c, s) && Stops(c, s) && Enabled(c, s, MainStep)
    ensures Awake(c, StepMain(c, s))
  {
  }

  predicate Enqueueing(m: Main)
  {
    m.EnqDet? || m.FullDet? || m.OweDet? || m.EnqTrack? || m.FullTrack? || m.OweTrack?
  }

  lemma EnqueueStops(c: Config, s: State)
    requires c.frames > 0 && MainInShape(c, s.main) && Stops(c, s)
    requires Enqueueing(s.main) && Enabled(c, s, MainStep)
    ensures Stops(c, StepMain(c, s)) && MainInShape(c, StepMain(c, s).main)
  {
  }

  lemma LateStops(c: Config, s: State)
    requires c.frames > 0 && TracksInOrder(c, s) && Awake(c, s) && Stops(c, s)
    requires !Enqueueing(s.main) && Enabled(c, s, MainStep)
    ensures Stops(c, StepMain(c, s)) && MainInShape(c, StepMain(c, s).main)
  {
  }

  lemma MainStops(c: Config, s: State)
    requires Inv(c, s) && Enabled(c, s, MainStep)
    ensures Stops(c, StepMain(c, s)) && MainInShape(c, StepMain(c, s).main)
  {
    if Enqueueing(s.main) {
      EnqueueStops(c, s);
    } else {
      LateStops(c, s);
    }
  }

  lemma MainKeepsInv(c: Config, s: State)
    requires Inv(c, s) && Enabled(c, s, MainStep)
    ensures Inv(c, StepMain(c, s))
  {
    MainTracksInOrder(c, s);
    MainDetectsInOrder(c, s);
    MainAwake(c, s);
    MainStops(c, s);
  }

  lemma TrackTracksInOrder(c: Config, s: State)
    requires Inv(c, s) && Enabled(c, s, TrackStep)
    ensures TracksInOrder(c, StepTrack(s))
  {
  }

  lemma TrackDetectsInOrder(c: Config, s: State)
    requires MainInShape(c, s.main) && TracksInOrder(c, s) && DetectsInOrder(c, s) && Enabled(c, s, TrackStep)
    ensures DetectsInOrder(c, StepTrack(s))
  {
    if s.tw.WaitDet? {
      WaitedForDetect(c, s);
    } else {
      TrackElsewhere(c, s);
    }
  }

  /** A track task goes on when the detect task of its frame, if there is one, is done, and so are all before. */
  lemma WaitedForDetect(c: Config, s: State)
    requires TracksInOrder(c, s) && DetectsInOrder(c, s) && Enabled(c, s, TrackStep) && s.tw.WaitDet?
    ensures DetectsInOrder(c, StepTrack(s))
  {
    DetectsAt(s.id);
  }

  lemma TrackElsewhere(c: Config, s: State)
    requires MainInShape(c, s.main) && DetectsInOrder(c, s) && Enabled(c, s, TrackStep) && !s.tw.WaitDet?
    requires s.tw.Body? ==> s.tw.i == s.id
    ensures DetectsInOrder(c, StepTrack(s))
  {
  }

  lemma TrackAwake(c: Config, s: State)
    requires Inv(c, s) && Enabled(c, s, TrackStep)
    ensures Awake(c, StepTrack(s))
  {
  }

  lemma TrackStops(c: Config, s: State)
    requires Inv(c, s) && Enabled(c, s, TrackStep)
    ensures Stops(c, StepTrack(s)) && MainInShape(c, StepTrack(s).main)
  {
  }

  lemma TrackKeepsInv(c: Config, s: State)
    requires Inv(c, s) && Enabled(c, s, TrackStep)
    ensures Inv(c, StepTrack(s))
  {
    TrackTracksInOrder(c, s);
    TrackDetectsInOrder(c, s);
    TrackAwake(c, s);
    TrackStops(c, s);
  }

  lemma DetectTracksInOrder(c: Config, s: State)
    requires Inv(c, s) && Enabled(c, s, DetectStep)
    ensures TracksInOrder(c, StepDetect(s))
  {
  }

  lemma DetectDetectsInOrder(c: Config, s: State)
    requires MainInShape(c, s.main) && DetectsInOrder(c, s) && Enabled(c, s, DetectStep)
    ensures DetectsInOrder(c, StepDetect(s))
  {
  }

  lemma DetectAwake(c: Config, s: State)
    requires Inv(c, s) && Enabled(c, s, DetectStep)
    ensures Awake(c, StepDetect(s))
  {
  }

  lemma DetectStops(c: Config, s: State)
    requires Inv(c, s) && Enabled(c, s, DetectStep)
    ensures Stops(c, StepDetect(s)) && MainInShape(c, StepDetect(s).main)
  {
  }

  lemma DetectKeepsInv(c: Config, s: State)
    requires Inv(c, s) && Enabled(c, s, DetectStep)
    ensures Inv(c, StepDetect(s))
  {
    DetectTracksInOrder(c, s);
    DetectDetectsInOrder(c, s);
    DetectAwake(c, s);
    DetectStops(c, s);
  }

  lemma StepInv(c: Config, s: State, e: Event)
    requires Inv(c, s) && Enabled(c, s, e)
    ensures Inv(c, Step(c, s, e))
  {
    match e
    case MainStep => MainKeepsInv(c, s);
    case TrackStep => TrackKeepsInv(c, s);
    case DetectStep => DetectKeepsInv(c, s);
    case _ => WakeKeepsInv(c, s, e);
  }

  lemma WakeKeepsInv(c: Config, s: State, e: Event)
    requires Inv(c, s) && Enabled(c, s, e) && Spurious(e)
    ensures Inv(c, Step(c, s, e))
  {
  }

  lemma {:induction false} RunsKeepInv(c: Config, s: State, es: seq<Event>, s': State)
    requires Inv(c, s) && Runs(c, s, es, s')
    ensures Inv(c, s')
    decreases |es|
  {
    if es != [] {
      StepInv(c, s, es[0]);
      RunsKeepInv(c, Step(c, s, es[0]), es[1..], s');
    }
  }

  lemma ReachableInv(c: Config, s: State)
    requires c.Valid() && Reachable(c, s)
    ensures Inv(c, s)
  {
    var es: seq<Event> :| Runs(c, Start(c), es, s);
    StartInv(c);
    RunsKeepInv(c, Start(c), es, s);
  }

  // ---------------------------------------------------------------------------
  // Main results
  // ---------------------------------------------------------------------------

  /** The two pools never deadlock: until `main` returns, some thread can take a step of its own. */
  lemma NeverStuck(c: Config, s: State)
    requires c.Valid() && Reachable(c, s) && s.main != Done
    ensures Enabled(c, s, MainStep) || Enabled(c, s, TrackStep) || Enabled(c, s, DetectStep)
  {
    ReachableInv(c, s);
  }

  /** Track tasks run in frame order, each with the tracker's counter equal to its frame, and never
      before the detection they wait for. */
  lemma TracksRunInFrameOrder(c: Config, s: State, k: nat)
    requires c.Valid() && Reachable(c, s) && k < |s.log|
    ensures s.log[k] == Entry(k, k) && (k % 4 == 0 ==> k in s.detectReady)
  {
    ReachableInv(c, s);
  }

  /** Once the last future is ready, every track task and every detect task is done. */
  lemma LastFutureMeansAllDone(c: Config, s: State)
    requires c.Valid() && Reachable(c, s) && c.frames - 1 in s.trackReady
    ensures s.log == seq(c.frames, k requires 0 <= k < c.frames => Entry(k, k))
    ensures s.detected == seq(Detects(c.frames), k requires 0 <= k < Detects(c.frames) => 4 * k)
    ensures forall f :: f in s.detected <==> 0 <= f < c.frames && f % 4 == 0
    ensures s.track.tasks == [] && s.detect.tasks == []
  {
    ReachableInv(c, s);
    forall f: nat | f < c.frames && f % 4 == 0
      ensures f in s.detected
    {
      assert s.detected[f / 4] == f;
    }
  }

  /** `main` stops the pools only after the last future was ready, and when it returns both workers have. */
  lemma MainWaitsForAll(c: Config, s: State)
    requires c.Valid() && Reachable(c, s)
    ensures s.track.stop || s.detect.stop ==> c.frames - 1 in s.trackReady
    ensures s.main == Done ==> s.tw == TExited && s.dw == DExited && s.track.stop && s.detect.stop
  {
    ReachableInv(c, s);
  }

  /** Steps left: a bound that every step but a spurious wakeup lowers. */
  function Left(c: Config, s: State): nat
    requires MainInShape(c, s.main)
  {
    MainLeft(c, s.main) + 6 * |s.track.tasks| + 6 * |s.detect.tasks|
    + (match s.tw case TExited => 0 case TAsleep => 1 case TIdle => 2
       case Body(_) => 3 case WaitDet(_) => 4 case WaitPrev(_) => 5)
    + (match s.dw case DExited => 0 case DAsleep => 1 case DIdle => 2 case Detect(_) => 3)
  }

  function MainLeft(c: Config, m: Main): nat
    requires MainInShape(c, m)
  {
    match m
    case EnqDet(i) => 20 + 22 * (c.frames - i)
    case FullDet(i) => 19 + 22 * (c.frames - i)
    case OweDet(i) => 12 + 22 * (c.frames - i)
    case EnqTrack(i) => 9 + 22 * (c.frames - i)
    case FullTrack(i) => 8 + 22 * (c.frames - i)
    case OweTrack(i) => 1 + 22 * (c.frames - i)
    case WaitLast => 20 case StopTrack => 19 case WakeTrack => 18 case JoinTrack => 16
    case StopDet => 15 case WakeDet => 14 case JoinDet => 12 case Done => 0
  }

  lemma MainLowers(c: Config, s: State)
    requires MainInShape(c, s.main) && Enabled(c, s, MainStep)
    ensures MainInShape(c, StepMain(c, s).main) && Left(c, StepMain(c, s)) < Left(c, s)
  {
  }

  lemma TrackLowers(c: Config, s: State)
    requires MainInShape(c, s.main) && Enabled(c, s, TrackStep)
    ensures MainInShape(c, StepTrack(s).main) && Left(c, StepTrack(s)) < Left(c, s)
  {
  }

  lemma DetectLowers(c: Config, s: State)
    requires MainInShape(c, s.main) && Enabled(c, s, DetectStep)
    ensures MainInShape(c, StepDetect(s).main) && Left(c, StepDetect(s)) < Left(c, s)
  {
  }

  lemma StepsLower(c: Config, s: State, e: Event)
    requires MainInShape(c, s.main) && Enabled(c, s, e)
    ensures MainInShape(c, Step(c, s, e).main)
    ensures if Spurious(e) then Left(c, Step(c, s, e)) == Left(c, s) + 1 else Left(c, Step(c, s, e)) < Left(c, s)
  {
    match e
    case MainStep => MainLowers(c, s);
    case TrackStep => TrackLowers(c, s);
    case DetectStep => DetectLowers(c, s);
    case WakeMain =>
    case WakeTracker =>
    case WakeDetector =>
  }

  function Wakes(es: seq<Event>): nat
  {
    if es == [] then 0 else (if Spurious(es[0]) then 1 else 0) + Wakes(es[1..])
  }

  /** No run goes on for ever on its own: its length is bounded by the frames and by how often a
      sleeper was woken for no reason. With `NeverStuck`, the pipeline always finishes. */
  lemma {:induction false} RunsAreBounded(c: Config, s: State, es: seq<Event>, s': State)
    requires MainInShape(c, s.main) && Runs(c, s, es, s')
    ensures MainInShape(c, s'.main) && |es| + Left(c, s') <= Left(c, s) + 2 * Wakes(es)
    decreases |es|
  {
    if es != [] {
      StepsLower(c, s, es[0]);
      RunsAreBounded(c, Step(c, s, es[0]), es[1..], s');
    }
  }

  lemma PipelineFinishes(c: Config, es: seq<Event>, s: State)
    requires c.Valid() && Runs(c, Start(c), es, s)
    ensures |es| <= 24 + 22 * c.frames + 2 * Wakes(es)
  {
    RunsAreBounded(c, Start(c), es, s);
  }
}
