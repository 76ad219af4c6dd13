/**
  `process_initial_state` of benchmark_runner.py: before an episode starts,
  the basket is cut out of the simulator's flattened state vector because it
  hides the side view.

  The state vector starts with the time step (1 scalar) and the robot state
  (9 scalars), followed by 7 scalars per object; 13 scalars belong to the
  basket. numpy's shape errors (a negative array size, a slice assignment
  whose sides do not broadcast) are the `Failure` results.
*/
module BenchmarkRunner {
  import opened Wrappers
  import Strings

  /** The number of scalars the basket removal takes out of the state. */
  const BasketScalars := 13

  /** Time (1) + robot state (9) + the first object (7): the part before the basket in libero_object. */
  const KeptBeforeBasket := 17

  /** Where the libero_object state resumes after the basket's 7 pose scalars. */
  const ResumeAfterBasket := 24

  /** The trailing velocity scalars libero_object drops (they are all zero). */
  const TrailingVelocities := 6

  /** numpy's `ValueError`s: `np.zeros` of a negative size, or a slice assignment that does not broadcast. */
  datatype ShapeError = NegativeDimensions(size: int) | BroadcastMismatch(target: nat, source: nat)

  /** The living-room scenes, in which the basket is the last object. */
  predicate IsLivingRoom(taskName: string) {
    Strings.Contains(taskName, "LIVING_ROOM_SCENE1") || Strings.Contains(taskName, "LIVING_ROOM_SCENE2")
  }

  /** `1 + 9 + 7 * object_num`: time, robot state and the objects before the trailing basket. */
  function LivingRoomKept(objectNum: nat): nat {
    1 + 9 + 7 * objectNum
  }

  function Min(a: int, b: int): int {
    if a <= b then a else b
  }

  /**
    The new state as a value. In libero_object the basket is the second
    object: the first 17 scalars are kept and the rest is taken from index 24
    on, without the last 6. In the living-room scenes the kept prefix is
    copied and the rest is zero. Every other state is returned as it is.
    The libero_object test comes first.
  */
  function ProcessedState(s: seq<real>, taskName: string, testSet: string, objectNum: nat): Result<seq<real>, ShapeError> {
    var n := |s|;
    if testSet == "libero_object" then
      if n < BasketScalars then Failure(NegativeDimensions(n - BasketScalars))
      else if n - BasketScalars < KeptBeforeBasket then
        Failure(BroadcastMismatch(n - BasketScalars, Min(KeptBeforeBasket, n)))
      else Success(s[..KeptBeforeBasket] + s[ResumeAfterBasket..n - TrailingVelocities])
    else if IsLivingRoom(taskName) then
      var kept := LivingRoomKept(objectNum);
      if n < BasketScalars then Failure(NegativeDimensions(n - BasketScalars))
      else if n - BasketScalars < kept then Failure(BroadcastMismatch(n - BasketScalars, Min(kept, n)))
      else Success(s[..kept] + seq(n - BasketScalars - kept, _ => 0.0))
    else Success(s)
  }

  /** A libero_object state of at least 30 scalars loses exactly the basket's 13: entries 17..23 and the last 6. */
  lemma LiberoObjectLayout(s: seq<real>, taskName: string, objectNum: nat)
    requires |s| >= BasketScalars + KeptBeforeBasket
    ensures var r := ProcessedState(s, taskName, "libero_object", objectNum);
      && r.Success?
      && |r.value| == |s| - BasketScalars
      && (forall i :: 0 <= i < KeptBeforeBasket ==> r.value[i] == s[i])
      && (forall i :: KeptBeforeBasket <= i < |r.value| ==> r.value[i] == s[i + ResumeAfterBasket - KeptBeforeBasket])
  {
  }

  /** A shorter libero_object state fails: below 13 scalars `np.zeros` rejects the size, otherwise the slices do not match. */
  lemma LiberoObjectTooShort(s: seq<real>, taskName: string, objectNum: nat)
    requires |s| < BasketScalars + KeptBeforeBasket
    ensures var r := ProcessedState(s, taskName, "libero_object", objectNum);
      && r.Failure?
      && (r.error.NegativeDimensions? <==> |s| < BasketScalars)
  {
  }

  /**
    The test set is looked at before the task name: a libero_object state is
    processed the same way whatever the task is called and however many
    objects it has.
  */
  lemma TestSetTakesPriority(s: seq<real>, t1: string, t2: string, k1: nat, k2: nat)
    ensures ProcessedState(s, t1, "libero_object", k1) == ProcessedState(s, t2, "libero_object", k2)
  {
  }

  /** In a living-room scene the kept prefix is copied, every later entry is zero, and the length drops by 13. */
  lemma LivingRoomLayout(s: seq<real>, taskName: string, testSet: string, objectNum: nat)
    requires testSet != "libero_object" && IsLivingRoom(taskName)
    requires |s| - BasketScalars >= LivingRoomKept(objectNum)
    ensures var r := ProcessedState(s, taskName, testSet, objectNum);
      && r.Success?
      && |r.value| == |s| - BasketScalars
      && (forall i :: 0 <= i < LivingRoomKept(objectNum) ==> r.value[i] == s[i])
      && (forall i :: LivingRoomKept(objectNum) <= i < |r.value| ==> r.value[i] == 0.0)
  {
  }

  /**
    A living-room state with less room than the kept prefix fails: with a
    negative dimension when it has fewer than 13 scalars, with a broadcast
    mismatch otherwise.
  */
  lemma LivingRoomTooShort(s: seq<real>, taskName: string, testSet: string, objectNum: nat)
    requires testSet != "libero_object" && IsLivingRoom(taskName)
    requires |s| - BasketScalars < LivingRoomKept(objectNum)
    ensures var r := ProcessedState(s, taskName, testSet, objectNum);
      && r.Failure?
      && (r.error.NegativeDimensions? <==> |s| < BasketScalars)
      && (r.error.BroadcastMismatch? <==> |s| >= BasketScalars)
  {
  }

  /** Outside libero_object and the living-room scenes the state passes through unchanged. */
  lemma OtherScenesUnchanged(s: seq<real>, taskName: string, testSet: string, objectNum: nat)
    requires testSet != "libero_object" && !IsLivingRoom(taskName)
    ensures ProcessedState(s, taskName, testSet, objectNum) == Success(s)
  {
  }

  /** A living-room task name, checked by the substring search. */
  lemma LivingRoomExample()
    ensures IsLivingRoom("LIVING_ROOM_SCENE2_pick_up_the_basket")
    ensures !IsLivingRoom("KITCHEN_SCENE1_open_the_drawer")
  {
    var name := "LIVING_ROOM_SCENE2_pick_up_the_basket";
    assert Strings.OccursAt(name, "LIVING_ROOM_SCENE2", 0);
    var other := "KITCHEN_SCENE1_open_the_drawer";
    forall i | 0 <= i <= |other| - 18
      ensures !Strings.OccursAt(other, "LIVING_ROOM_SCENE1", i) && !Strings.OccursAt(other, "LIVING_ROOM_SCENE2", i)
    {
      assert other[i..i + 18][0] == other[i];
      assert other[i..i + 18][1] == other[i + 1];
    }
  }

  /**
    `process_initial_state` on the simulator's array: the two basket-removing
    branches fill a fresh zero array by slice assignment and never write to
    `state`; the other branch hands back `state` itself.
  */
  method ProcessInitialState(state: array<real>, taskName: string, testSet: string, objectNum: nat)
    returns (r: Result<array<real>, ShapeError>)
    ensures var spec := ProcessedState(state[..], taskName, testSet, objectNum);
      && (r.Failure? <==> spec.Failure?)
      && (r.Failure? ==> r.error == spec.error)
      && (r.Success? ==> r.value[..] == spec.value)
    ensures r.Success? ==>
      if testSet == "libero_object" || IsLivingRoom(taskName) then fresh(r.value) else r.value == state
  {
    var num := state.Length;
    if testSet == "libero_object" {
      if num < BasketScalars {
        return Failure(NegativeDimensions(num - BasketScalars));
      }
      var newState := new real[num - BasketScalars](_ => 0.0);
      if num - BasketScalars < KeptBeforeBasket {
        return Failure(BroadcastMismatch(num - BasketScalars, Min(KeptBeforeBasket, num)));
      }
      forall i | 0 <= i < KeptBeforeBasket {
        newState[i] := state[i];
      }
      forall i | KeptBeforeBasket <= i < num - BasketScalars {
        newState[i] := state[i + ResumeAfterBasket - KeptBeforeBasket];
      }
      assert newState[..] == state[..KeptBeforeBasket] + state[ResumeAfterBasket..num - TrailingVelocities];
      r := Success(newState);
    } else if IsLivingRoom(taskName) {
      var kept := LivingRoomKept(objectNum);
      if num < BasketScalars {
        return Failure(NegativeDimensions(num - BasketScalars));
      }
      var newState := new real[num - BasketScalars](_ => 0.0);
      if num - BasketScalars < kept {
        return Failure(BroadcastMismatch(num - BasketScalars, Min(kept, num)));
      }
      forall i | 0 <= i < kept {
        newState[i] := state[i];
      }
      assert newState[..] == state[..kept] + seq(num - BasketScalars - kept, _ => 0.0);
      r := Success(newState);
    } else {
      r := Success(state);
    }
  }
}
