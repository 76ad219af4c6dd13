/**
  What one server reply turns into (agent.py, `_post_and_get`): the delta
  actions of the chunk are composed one after the other onto a running pose,
  and every absolute action is then expanded by the gripper-transition state
  machine into the entries that go to the back of the action queue.

  The executable loop is `Agent.RemoteAgent.DecodeOnto`; the functions here are
  its specification, written as recursion on the processed prefix so that the
  loop's invariants can name them directly.
*/
module ChunkDecoding {
  import opened Pose

  /** `GRIP_TRANSITION_ACTIONS`: how many times a changed gripper command is repeated. */
  const GripTransitionActions := 4

  datatype Box = Box(x1: real, y1: real, x2: real, y2: real)

  /** `response['debug']['bbox']`: a box per camera view, passed through untouched. */
  datatype BBox = BBox(front: Box, side: Box)

  /** One entry of `pred_actions`: an absolute action and the bbox shown with it. */
  datatype Queued = Queued(action: Vec7, bbox: BBox)

  // ---------------------------------------------------------------------------
  // The running pose
  // ---------------------------------------------------------------------------

  /** The pose the next entry is composed onto: the last absolute pose so far, or `start`. */
  function RunningPose(prev: seq<Vec7>, start: Pose6): Pose6 {
    if prev == [] then start else prev[|prev| - 1].pose
  }

  /** The absolute action of every chunk entry, each composed onto the previous one's pose. */
  function AbsolutePoses(rot: Rotations, chunk: seq<Vec7>, start: Pose6): (r: seq<Vec7>)
    ensures |r| == |chunk|
    ensures forall k :: 0 <= k < |chunk| ==> r[k].gripper == chunk[k].gripper
    decreases |chunk|
  {
    if chunk == [] then []
    else
      var prev := AbsolutePoses(rot, chunk[..|chunk| - 1], start);
      prev + [DeltaToAbs(rot, chunk[|chunk| - 1], RunningPose(prev, start))]
  }

  /** Decoding a prefix of the chunk gives the prefix of the decoded chunk. */
  lemma {:induction false} AbsolutePosesPrefix(rot: Rotations, chunk: seq<Vec7>, start: Pose6, m: nat)
    requires m <= |chunk|
    ensures AbsolutePoses(rot, chunk, start)[..m] == AbsolutePoses(rot, chunk[..m], start)
    decreases |chunk|
  {
    if m < |chunk| {
      var p := chunk[..|chunk| - 1];
      AbsolutePosesPrefix(rot, p, start, m);
      assert p[..m] == chunk[..m];
      assert AbsolutePoses(rot, chunk, start)[..m] == AbsolutePoses(rot, p, start)[..m];
    } else {
      assert chunk[..m] == chunk;
    }
  }

  /**
    Entry `k` is composed onto the absolute pose of entry `k - 1`, and entry 0
    onto the start pose (the newest proprioception frame).
  */
  lemma RunningPoseChain(rot: Rotations, chunk: seq<Vec7>, start: Pose6, k: nat)
    requires k < |chunk|
    ensures AbsolutePoses(rot, chunk, start)[k]
         == DeltaToAbs(rot, chunk[k],
                       if k == 0 then start else AbsolutePoses(rot, chunk, start)[k - 1].pose)
  {
    var abs := AbsolutePoses(rot, chunk, start);
    AbsolutePosesPrefix(rot, chunk, start, k + 1);
    AbsolutePosesPrefix(rot, chunk, start, k);
    var q := chunk[..k + 1];
    assert q[..k] == chunk[..k];
    assert abs[..k + 1][k] == abs[k];
    assert AbsolutePoses(rot, q, start)[..k] == abs[..k];
  }

  /**
    Decoding one more chunk entry appends its absolute action, composed onto
    the running pose, and appends that action's queue entries.
  */
  lemma DecodeOneMore(rot: Rotations, chunk: seq<Vec7>, start: Pose6, finger: real, bbox: BBox, i: nat)
    requires i < |chunk|
    ensures var abs := AbsolutePoses(rot, chunk[..i], start);
      var a := DeltaToAbs(rot, chunk[i], RunningPose(abs, start));
      && AbsolutePoses(rot, chunk[..i + 1], start) == abs + [a]
      && Expand(abs + [a], finger, bbox) == Expand(abs, finger, bbox) + ExpandEntry(a, FingerAfter(abs, finger), bbox)
      && FingerAfter(abs + [a], finger) == NextLast(FingerAfter(abs, finger), a.gripper)
  {
    assert chunk[..i + 1][..i] == chunk[..i];
    var abs := AbsolutePoses(rot, chunk[..i], start);
    var a := DeltaToAbs(rot, chunk[i], RunningPose(abs, start));
    assert (abs + [a])[..|abs|] == abs;
  }

  /** The sum of the translation deltas of a chunk. */
  function SumTranslations(chunk: seq<Vec7>): Vec3 {
    if chunk == [] then Zero3
    else Add(SumTranslations(chunk[..|chunk| - 1]), chunk[|chunk| - 1].pose.pos)
  }

  /** The position of entry `k` is the start position plus the translations of entries 0 to `k`. */
  lemma {:induction false} AbsolutePositions(rot: Rotations, chunk: seq<Vec7>, start: Pose6, k: nat)
    requires k < |chunk|
    ensures AbsolutePoses(rot, chunk, start)[k].pose.pos == Add(start.pos, SumTranslations(chunk[..k + 1]))
    decreases k
  {
    var abs := AbsolutePoses(rot, chunk, start);
    RunningPoseChain(rot, chunk, start, k);
    assert chunk[..k + 1][..k] == chunk[..k];
    if k > 0 {
      AbsolutePositions(rot, chunk, start, k - 1);
    }
  }

  // ---------------------------------------------------------------------------
  // The gripper-transition state machine
  // ---------------------------------------------------------------------------

  /** An entry asks for a transition when its gripper value is non-zero and differs from the last command. */
  predicate IsTransition(last: real, g: real) {
    g != 0.0 && g != last
  }

  /** `last_finger_state` after an entry with gripper `g`: the last non-zero command. */
  function NextLast(last: real, g: real): real {
    if g != 0.0 then g else last
  }

  /** `last_finger_state` after the absolute actions `abs`, starting from `finger`. */
  function FingerAfter(abs: seq<Vec7>, finger: real): real
    decreases |abs|
  {
    if abs == [] then finger
    else NextLast(FingerAfter(abs[..|abs| - 1], finger), abs[|abs| - 1].gripper)
  }

  /**
    The queue entries for one absolute action `a` when the last command was
    `last`: `a` itself, or on a transition an arm-only copy with gripper 0
    followed by `GripTransitionActions` copies of `a`.
  */
  function ExpandEntry(a: Vec7, last: real, bbox: BBox): (r: seq<Queued>)
    ensures |r| == if IsTransition(last, a.gripper) then 1 + GripTransitionActions else 1
    ensures forall j :: 0 <= j < |r| ==> r[j].bbox == bbox && r[j].action.pose == a.pose
    ensures r[0].action.gripper == if IsTransition(last, a.gripper) then 0.0 else a.gripper
    ensures forall j :: 1 <= j < |r| ==> r[j].action == a
  {
    if IsTransition(last, a.gripper) then
      [Queued(Vec7(a.pose, 0.0), bbox)] + seq(GripTransitionActions, _ => Queued(a, bbox))
    else
      [Queued(a, bbox)]
  }

  /** All queue entries for the absolute actions `abs`, in order. */
  function Expand(abs: seq<Vec7>, finger: real, bbox: BBox): (r: seq<Queued>)
    ensures forall j :: 0 <= j < |r| ==> r[j].bbox == bbox
    decreases |abs|
  {
    if abs == [] then []
    else
      var p := abs[..|abs| - 1];
      Expand(p, finger, bbox) + ExpandEntry(abs[|abs| - 1], FingerAfter(p, finger), bbox)
  }

  /** The indices of the entries that start a gripper transition. */
  function Transitions(abs: seq<Vec7>, finger: real): set<nat> {
    set k: nat | k < |abs| && IsTransition(FingerAfter(abs[..k], finger), abs[k].gripper)
  }

  lemma TransitionsSnoc(abs: seq<Vec7>, finger: real)
    requires |abs| > 0
    ensures var p := abs[..|abs| - 1];
      |Transitions(abs, finger)|
      == |Transitions(p, finger)|
         + (if IsTransition(FingerAfter(p, finger), abs[|abs| - 1].gripper) then 1 else 0)
  {
    var n := |abs|;
    var p := abs[..n - 1];
    forall k | 0 <= k < n - 1
      ensures abs[..k] == p[..k] && abs[k] == p[k]
    {
    }
    var last: set<nat> := if IsTransition(FingerAfter(p, finger), abs[n - 1].gripper) then {n - 1} else {};
    assert abs[..n - 1] == p;
    assert Transitions(abs, finger) == Transitions(p, finger) + last;
    assert Transitions(p, finger) * last == {};
  }

  /** The queue grows by one entry per chunk entry plus `GripTransitionActions` per transition. */
  lemma {:induction false} ExpandLength(abs: seq<Vec7>, finger: real, bbox: BBox)
    ensures |Expand(abs, finger, bbox)| == |abs| + GripTransitionActions * |Transitions(abs, finger)|
    decreases |abs|
  {
    if abs == [] {
      assert Transitions(abs, finger) == {};
    } else {
      ExpandLength(abs[..|abs| - 1], finger, bbox);
      TransitionsSnoc(abs, finger);
    }
  }

  /** Without any non-zero gripper command in the chunk, the remembered gripper state stays as it was. */
  lemma {:induction false} FingerAfterNoCommand(abs: seq<Vec7>, finger: real)
    requires forall k :: 0 <= k < |abs| ==> abs[k].gripper == 0.0
    ensures FingerAfter(abs, finger) == finger
    decreases |abs|
  {
    if abs != [] {
      var p := abs[..|abs| - 1];
      assert forall k :: 0 <= k < |p| ==> p[k] == abs[k];
      FingerAfterNoCommand(p, finger);
    }
  }

  /**
    After a chunk, the remembered gripper state is the chunk's last non-zero
    gripper command `abs[k]`.
  */
  lemma {:induction false} FingerAfterIsLastCommand(abs: seq<Vec7>, finger: real, k: nat)
    requires k < |abs| && abs[k].gripper != 0.0
    requires forall j :: k < j < |abs| ==> abs[j].gripper == 0.0
    ensures FingerAfter(abs, finger) == abs[k].gripper
    decreases |abs|
  {
    var n := |abs|;
    if k < n - 1 {
      var p := abs[..n - 1];
      assert abs[n - 1].gripper == 0.0;
      assert forall j :: 0 <= j < |p| ==> p[j] == abs[j];
      FingerAfterIsLastCommand(p, finger, k);
    }
  }

  // ---------------------------------------------------------------------------
  // A whole reply
  // ---------------------------------------------------------------------------

  /** The entries a chunk adds to the queue and the gripper state it leaves behind. */
  datatype Decoded = Decoded(actions: seq<Queued>, finger: real)

  function DecodeChunk(rot: Rotations, chunk: seq<Vec7>, start: Pose6, finger: real, bbox: BBox): Decoded {
    var abs := AbsolutePoses(rot, chunk, start);
    Decoded(Expand(abs, finger, bbox), FingerAfter(abs, finger))
  }

  /**
    A chunk `[(d1, gripper 0), (d2, gripper +1)]` decoded with the gripper
    state at -1 gives six entries: d1 as it is, d2 arm-only with gripper 0,
    then four copies of d2 with gripper +1; the state becomes +1.
  */
  lemma TransitionExample(rot: Rotations, d1: Pose6, d2: Pose6, start: Pose6, bbox: BBox)
    ensures var r := DecodeChunk(rot, [Vec7(d1, 0.0), Vec7(d2, 1.0)], start, -1.0, bbox);
      && |r.actions| == 6
      && r.actions[0].action.gripper == 0.0
      && r.actions[1].action.gripper == 0.0
      && (forall j :: 2 <= j < 6 ==> r.actions[j].action.gripper == 1.0)
      && r.actions[1].action.pose == r.actions[5].action.pose
      && (var a1 := DeltaToAbs(rot, Vec7(d1, 0.0), start);
          var a2 := DeltaToAbs(rot, Vec7(d2, 1.0), a1.pose);
          r.actions == [Queued(a1, bbox), Queued(Vec7(a2.pose, 0.0), bbox), Queued(a2, bbox),
                        Queued(a2, bbox), Queued(a2, bbox), Queued(a2, bbox)])
      && r.finger == 1.0
  {
    var chunk := [Vec7(d1, 0.0), Vec7(d2, 1.0)];
    var abs := AbsolutePoses(rot, chunk, start);
    assert chunk[..1] == [Vec7(d1, 0.0)];
    assert abs[..1] == AbsolutePoses(rot, chunk[..1], start) by {
      AbsolutePosesPrefix(rot, chunk, start, 1);
    }
    assert FingerAfter(abs[..1], -1.0) == -1.0;
    assert |Expand(abs[..1], -1.0, bbox)| == 1;
  }

  /** A single delta with gripper 0 becomes one queue entry, its absolute action, and the gripper state stays. */
  lemma SingleNoCommandChunk(rot: Rotations, delta: Vec7, start: Pose6, finger: real, bbox: BBox)
    requires delta.gripper == 0.0
    ensures DecodeChunk(rot, [delta], start, finger, bbox)
         == Decoded([Queued(DeltaToAbs(rot, delta, start), bbox)], finger)
  {
    var chunk := [delta];
    assert chunk[..0] == [];
    var a := DeltaToAbs(rot, delta, start);
    assert AbsolutePoses(rot, chunk, start) == [a];
    assert [a][..0] == [];
    assert Expand([a], finger, bbox) == [] + ExpandEntry(a, finger, bbox);
  }

  /** A chunk `[(d, gripper +1)]` decoded with the gripper state already +1 gives one entry. */
  lemma NoTransitionExample(rot: Rotations, d: Pose6, start: Pose6, bbox: BBox)
    ensures var r := DecodeChunk(rot, [Vec7(d, 1.0)], start, 1.0, bbox);
      |r.actions| == 1 && r.actions[0].action.gripper == 1.0 && r.finger == 1.0
  {
    var chunk := [Vec7(d, 1.0)];
    assert chunk[..0] == [];
    var abs := AbsolutePoses(rot, chunk, start);
    assert abs[..0] == [];
    assert abs[0].gripper == 1.0;
    assert FingerAfter(abs, 1.0) == NextLast(FingerAfter([], 1.0), 1.0) == 1.0;
    assert Expand(abs, 1.0, bbox) == [] + ExpandEntry(abs[0], 1.0, bbox);
  }
}
