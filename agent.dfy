/**
  The remote control agent of agent.py (`RemoteAgent`): per control tick it
  records the robot's proprioception in a four-frame history, asks the policy
  server for a chunk of delta actions when its action queue has run dry, turns
  the chunk into absolute actions (with gripper transitions stretched over
  several ticks), and emits the head of the queue with the gripper sign
  flipped for the simulator.

  The transport, the forward kinematics solver and transforms3d are outside
  the model: the server is the `reply` parameter of `Step`, and forward
  kinematics and the rotation conversions are uninterpreted functions held in
  a `Kinematics` value.
*/
module Agent {
  import opened Wrappers
  import opened Pose
  import opened ChunkDecoding
  import Strings

  /** `PROPRIO_HISTORY_SIZE`: the `maxlen` of the proprioception deque. */
  const ProprioHistorySize := 4

  /** `GRIPPER_OPEN`: the gripper state the agent starts in. */
  const GripperOpen := 1.0

  const MinPort := 1
  const MaxPort := 65535

  // ---------------------------------------------------------------------------
  // Collaborators and messages
  // ---------------------------------------------------------------------------

  datatype Quaternion = Quaternion(w: real, x: real, y: real, z: real)

  /** What the kinematics solver's `fk` reports for the end effector. */
  datatype EefState = EefState(position: Vec3, quaternion: Quaternion)

  /** `obs['robot0_joint_pos']`, reshaped to one row of seven joints. */
  type Joints = s: seq<real> | |s| == 7 witness [0.0, 0.0, 0.0, 0.0, 0.0, 0.0, 0.0]

  /**
    The agent's uninterpreted collaborators: the robot's forward kinematics
    and transforms3d's `quat2euler`, `euler2mat` and `mat2euler` ('sxyz').
  */
  datatype Kinematics = Kinematics(fk: Joints -> EefState, quat2euler: Quaternion -> Vec3, rotations: Rotations)

  /** The part of an observation the core reads; the camera images are not modelled. */
  datatype Observation = Observation(jointPos: Joints)

  /** The request: `proprio_array` (the history, oldest first) and `text` (the instruction). */
  datatype Request = Request(proprio: seq<Vec7>, text: string)

  /** The reply: `result` (the chunk of delta actions) and `debug.bbox`. */
  datatype Response = Response(result: seq<Vec7>, bbox: BBox)

  /** `ValueError` raised by `_validate_inputs`. */
  datatype ValueError = EmptyInstruction | PortOutOfRange(port: int)

  /** `IndexError` of `popleft` when the queue is still empty after a refill. */
  datatype StepError = EmptyChunk

  // ---------------------------------------------------------------------------
  // Pure parts
  // ---------------------------------------------------------------------------

  /**
    `_validate_inputs`: the instruction must contain a non-whitespace
    character, then the port must lie in 1..65535; the instruction is checked
    first.
  */
  function ValidateInputs(instruction: string, port: int): (r: Outcome<ValueError>)
    ensures r == Fail(EmptyInstruction)
        <==> forall i :: 0 <= i < |instruction| ==> Strings.IsSpace(instruction[i])
    ensures r == Fail(PortOutOfRange(port))
        <==> (exists i :: 0 <= i < |instruction| && !Strings.IsSpace(instruction[i]))
             && !(MinPort <= port <= MaxPort)
    ensures r.Pass? || r == Fail(EmptyInstruction) || r == Fail(PortOutOfRange(port))
  {
    Strings.StripEmptyIffAllSpace(instruction);
    if Strings.Strip(instruction) == [] then Fail(EmptyInstruction)
    else if !(MinPort <= port <= MaxPort) then Fail(PortOutOfRange(port))
    else Pass
  }

  /**
    `get_current_proprio`: the end-effector position and sxyz Euler angles of
    the forward kinematics, followed by the agent's current gripper state.
  */
  function CurrentProprio(kin: Kinematics, obs: Observation, fingerState: real): Vec7 {
    var eef := kin.fk(obs.jointPos);
    Vec7(Pose6(eef.position, kin.quat2euler(eef.quaternion)), fingerState)
  }

  /** Appending to a deque with `maxlen` 4 evicts the oldest frames beyond four. */
  function Evict(h: seq<Vec7>): seq<Vec7> {
    if |h| > ProprioHistorySize then h[|h| - ProprioHistorySize..] else h
  }

  /** The padding loop of `_process_proprio`: repeat the newest frame until there are four. */
  function Pad(h: seq<Vec7>): seq<Vec7>
    requires |h| >= 1
    decreases ProprioHistorySize - |h|
  {
    if |h| >= ProprioHistorySize then h else Pad(h + [h[|h| - 1]])
  }

  /** The history after `_process_proprio` has recorded frame `f`. */
  function UpdatedHistory(h: seq<Vec7>, f: Vec7): seq<Vec7> {
    Pad(Evict(h + [f]))
  }

  /** Padding keeps every frame it is given and fills the remaining slots with the newest one. */
  lemma {:induction false} PadShape(h: seq<Vec7>)
    requires |h| >= 1
    ensures |Pad(h)| == if |h| >= ProprioHistorySize then |h| else ProprioHistorySize
    ensures forall i :: 0 <= i < |h| ==> Pad(h)[i] == h[i]
    ensures forall i :: |h| <= i < |Pad(h)| ==> Pad(h)[i] == h[|h| - 1]
    decreases ProprioHistorySize - |h|
  {
    if |h| < ProprioHistorySize {
      PadShape(h + [h[|h| - 1]]);
    }
  }

  /** On the first tick the history becomes four copies of the new frame. */
  lemma FirstUpdate(f: Vec7)
    ensures UpdatedHistory([], f) == [f, f, f, f]
  {
    assert [] + [f] == [f];
    PadShape([f]);
    var h := UpdatedHistory([], f);
    assert h[0] == f && h[1] == f && h[2] == f && h[3] == f;
  }

  /** On every later tick the oldest frame is evicted and the new frame is the newest. */
  lemma LaterUpdate(h: seq<Vec7>, f: Vec7)
    requires |h| == ProprioHistorySize
    ensures UpdatedHistory(h, f) == h[1..] + [f]
  {
  }

  /** After any update of a history of at most four frames, it holds exactly four, the newest last. */
  lemma UpdatedHistoryShape(h: seq<Vec7>, f: Vec7)
    requires |h| <= ProprioHistorySize
    ensures |UpdatedHistory(h, f)| == ProprioHistorySize
    ensures UpdatedHistory(h, f)[ProprioHistorySize - 1] == f
  {
    PadShape(Evict(h + [f]));
  }

  /** `step` flips the gripper sign: the server's +1 (open) is the simulator's -1. */
  function Flip(q: Queued): Queued {
    Queued(Vec7(q.action.pose, -q.action.gripper), q.bbox)
  }

  /** The emitted gripper value is the negated queued one; pose and bbox pass unchanged; flipping twice restores. */
  lemma FlipProperties(q: Queued)
    ensures Flip(q).action.gripper == -q.action.gripper
    ensures Flip(q).action.pose == q.action.pose && Flip(q).bbox == q.bbox
    ensures Flip(Flip(q)) == q
  {
  }

  // ---------------------------------------------------------------------------
  // The agent
  // ---------------------------------------------------------------------------

  class RemoteAgent {
    const instruction: string
    /** The port of the server endpoint the socket connects to (agent.py:53); not part of the session state. */
    const port: int
    const kinematics: Kinematics

    /** `proprio_history`, oldest first. */
    var history: seq<Vec7>
    /** `pred_actions`, head first. */
    var queue: seq<Queued>
    /** `finger_state`: the last gripper command committed. */
    var fingerState: real
    /** The number of request/reply exchanges with the server so far. */
    ghost var requests: nat

    /**
      The session-shape invariant: either nothing has been recorded yet (and
      nothing queued), or the history is full. It says nothing about the
      contents of the history or the queue.
    */
    ghost predicate Valid()
      reads this
    {
      && (|history| == 0 || |history| == ProprioHistorySize)
      && (history == [] ==> queue == [])
    }

    /** `_initialize_state`: empty history and queue, gripper open. */
    constructor (instruction: string, port: int, kinematics: Kinematics)
      ensures Valid()
      ensures this.instruction == instruction && this.port == port && this.kinematics == kinematics
      ensures history == [] && queue == [] && fingerState == GripperOpen && requests == 0
    {
      this.instruction := instruction;
      this.port := port;
      this.kinematics := kinematics;
      history := [];
      queue := [];
      fingerState := GripperOpen;
      requests := 0;
    }

    /**
      `__init__`: the inputs are validated before anything else is set up, so
      an invalid instruction or port yields the error and no agent.
    */
    static method Create(instruction: string, port: int, kinematics: Kinematics)
      returns (r: Result<RemoteAgent, ValueError>)
      ensures r.Failure? <==> ValidateInputs(instruction, port).Fail?
      ensures r.Failure? ==> r.error == ValidateInputs(instruction, port).error
      ensures r.Success? ==>
        && fresh(r.value) && r.value.Valid()
        && r.value.instruction == instruction && r.value.port == port && r.value.kinematics == kinematics
        && r.value.history == [] && r.value.queue == []
        && r.value.fingerState == GripperOpen && r.value.requests == 0
    {
      var check := ValidateInputs(instruction, port);
      if check.Fail? {
        return Failure(check.error);
      }
      var agent := new RemoteAgent(instruction, port, kinematics);
      r := Success(agent);
    }

    /** `_process_proprio`: record the current frame and pad the history to four frames. */
    method ProcessProprio(obs: Observation)
      requires Valid()
      modifies this`history
      ensures |history| == ProprioHistorySize
      ensures history == UpdatedHistory(old(history), CurrentProprio(kinematics, obs, fingerState))
    {
      var frame := CurrentProprio(kinematics, obs, fingerState);
      history := history + [frame];
      if |history| > ProprioHistorySize {
        history := history[1..];
      }
      while |history| < ProprioHistorySize
        invariant 1 <= |history| <= ProprioHistorySize
        invariant Pad(history) == UpdatedHistory(old(history), frame)
        decreases ProprioHistorySize - |history|
      {
        history := history + [history[|history| - 1]];
      }
    }

    /**
      `_post_and_get`: one request/reply exchange, then the chunk is decoded
      onto the back of the queue; every changed gripper command is committed
      to `fingerState` as soon as it is decoded.
    */
    method PostAndGet(reply: Request -> Response)
      requires |history| == ProprioHistorySize
      modifies this`queue, this`fingerState, this`requests
      ensures requests == old(requests) + 1
      ensures var response := reply(Request(history, instruction));
        var d := DecodeChunk(kinematics.rotations, response.result, history[ProprioHistorySize - 1].pose,
                             old(fingerState), response.bbox);
        queue == old(queue) + d.actions && fingerState == d.finger
    {
      var response := reply(Request(history, instruction));
      requests := requests + 1;
      DecodeOnto(response.result, history[|history| - 1].pose, response.bbox);
    }

    /**
      The loop of `_post_and_get`: every delta of `chunk` is composed onto the
      running pose, which starts at `start`, and the resulting absolute action
      is queued.
    */
    method DecodeOnto(chunk: seq<Vec7>, start: Pose6, bbox: BBox)
      modifies this`queue, this`fingerState
      ensures var d := DecodeChunk(kinematics.rotations, chunk, start, old(fingerState), bbox);
        queue == old(queue) + d.actions && fingerState == d.finger
    {
      var rot := kinematics.rotations;
      ghost var finger0 := fingerState;
      ghost var queue0 := queue;
      ghost var abs: seq<Vec7> := [];
      var lastFingerState := fingerState;
      var currentPose := start;
      var i := 0;
      while i < |chunk|
        invariant 0 <= i <= |chunk|
        invariant abs == AbsolutePoses(rot, chunk[..i], start)
        invariant lastFingerState == fingerState
        invariant currentPose == RunningPose(abs, start)
        invariant fingerState == FingerAfter(abs, finger0)
        invariant queue == queue0 + Expand(abs, finger0, bbox)
      {
        DecodeOneMore(rot, chunk, start, finger0, bbox, i);
        var absAction := DeltaToAbs(rot, chunk[i], currentPose);
        currentPose := absAction.pose;
        Enqueue(absAction, lastFingerState, bbox);
        assert queue == queue0 + (Expand(abs, finger0, bbox) + ExpandEntry(absAction, FingerAfter(abs, finger0), bbox));
        lastFingerState := if absAction.gripper != 0.0 then absAction.gripper else lastFingerState;
        abs := abs + [absAction];
        i := i + 1;
      }
      assert chunk[..i] == chunk;
    }

    /**
      The body of `_post_and_get`'s loop for one absolute action `a`, the
      last command having been `last`: on a transition an arm-only entry and
      `GripTransitionActions` copies of `a` are queued and `a`'s command is
      committed; otherwise `a` alone is queued.
    */
    method Enqueue(a: Vec7, last: real, bbox: BBox)
      modifies this`queue, this`fingerState
      ensures queue == old(queue) + ExpandEntry(a, last, bbox)
      ensures fingerState == if IsTransition(last, a.gripper) then a.gripper else old(fingerState)
    {
      if a.gripper == 0.0 || a.gripper == last {
        queue := queue + [Queued(a, bbox)];
      } else {
        ghost var queue0 := queue;
        queue := queue + [Queued(Vec7(a.pose, 0.0), bbox)];
        for k := 0 to GripTransitionActions
          invariant queue == queue0 + [Queued(Vec7(a.pose, 0.0), bbox)] + seq(k, _ => Queued(a, bbox))
        {
          queue := queue + [Queued(a, bbox)];
        }
        fingerState := a.gripper;
      }
    }

    /**
      `step`: record proprioception, refill the queue from the server only
      when it is empty, then pop its head and return it with the gripper sign
      flipped. A reply with an empty chunk leaves nothing to pop.
    */
    method Step(obs: Observation, reply: Request -> Response) returns (r: Result<Queued, StepError>)
      requires Valid()
      modifies this
      ensures Valid() && |history| == ProprioHistorySize
      ensures history == UpdatedHistory(old(history), CurrentProprio(kinematics, obs, old(fingerState)))
      ensures var refill := old(queue) == [];
        var response := reply(Request(history, instruction));
        var d := DecodeChunk(kinematics.rotations, response.result, history[ProprioHistorySize - 1].pose,
                             old(fingerState), response.bbox);
        var pending := if refill then d.actions else old(queue);
        && requests == old(requests) + (if refill then 1 else 0)
        && fingerState == (if refill then d.finger else old(fingerState))
        && (if pending == [] then r == Failure(EmptyChunk) && queue == []
            else r == Success(Flip(pending[0])) && queue == pending[1..])
    {
      ProcessProprio(obs);
      if |queue| == 0 {
        PostAndGet(reply);
      }
      if |queue| == 0 {
        return Failure(EmptyChunk);
      }
      var head := queue[0];
      queue := queue[1..];
      r := Success(Flip(head));
    }
  }

  /**
    One tick of a fresh agent for "pick up apple" on port 5555 whose server
    answers with the single delta `[0.01, 0, 0, 0, 0, 0, 0]`: the emitted
    action is 1 cm further along x than the current position, and its gripper
    value is the flipped zero.
  */
  method FirstTickExample(kinematics: Kinematics, obs: Observation, bbox: BBox) returns (emitted: Queued)
    ensures emitted.action.pose.pos
         == Add(CurrentProprio(kinematics, obs, GripperOpen).pose.pos, Vec3(0.01, 0.0, 0.0))
    ensures emitted.action.gripper == -0.0
    ensures emitted.bbox == bbox
  {
    var instruction := "pick up apple";
    assert !Strings.IsSpace(instruction[0]);
    var created := RemoteAgent.Create(instruction, 5555, kinematics);
    var agent := created.value;
    var delta := Vec7(Pose6(Vec3(0.01, 0.0, 0.0), Zero3), 0.0);
    var reply := (req: Request) => Response([delta], bbox);
    var frame := CurrentProprio(kinematics, obs, GripperOpen);
    FirstUpdate(frame);
    SingleNoCommandChunk(kinematics.rotations, delta, frame.pose, GripperOpen, bbox);
    var r := agent.Step(obs, reply);
    assert agent.history == [frame, frame, frame, frame];
    assert r == Success(Flip(Queued(DeltaToAbs(kinematics.rotations, delta, frame.pose), bbox)));
    emitted := r.value;
  }
}
