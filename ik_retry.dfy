/** The inverse-kinematics retry policy: the two `get_track_ik_solution`
    loops around the TRAC-IK oracle and the seed chaining in `get_solution`.

    The oracle is library code. It is a parameter here: `oracle(req, n)` is
    its answer to the `n`-th call (counting from 0) made with request `req`
    within one solve, so a solver that answers differently on each call is
    covered. Its answer is Python's `None` or a tuple of joint angles; as in
    Python, an empty tuple is not `None` but is falsy. The oracle is total:
    the model assumes `get_ik` never raises, for example when the second
    solve of `get_solution` is seeded with `None` after a failed first
    solve. */
module IkRetry {
  import opened PoseAlgebra

  datatype IkAnswer = NoSolution | Joints(angles: seq<real>)

  /** Python truthiness of an answer (`if sol:`). */
  predicate Truthy(a: IkAnswer) {
    a.Joints? && |a.angles| > 0
  }

  /** The arguments of one `ik_solver.get_ik` call, in argument order: the
      seed, the target translation and the four quaternion components in
      index order. */
  datatype IkRequest = IkRequest(seed: IkAnswer, x: real, y: real, z: real,
                                 q0: real, q1: real, q2: real, q3: real)

  type IkOracle = (IkRequest, nat) -> IkAnswer

  /** What one loop pass hands the oracle: `trans[0..3]` and
      `rotated_qt[0..4]`, unreordered. */
  function RequestOf(seed: IkAnswer, trans: seq<real>, rotatedQt: seq<real>): IkRequest
    requires |trans| >= 3 && |rotatedQt| >= 4
  {
    IkRequest(seed, trans[0], trans[1], trans[2],
              rotatedQt[0], rotatedQt[1], rotatedQt[2], rotatedQt[3])
  }

  /** The attempt budget of the loop nested in `get_solution`. */
  const NestedRetryBudget: nat := 100

  /** The initial value of `retry` in the top-level loop; never read. */
  const TopLevelRetry: int := 30

  /** The fixed seed `get_solution` starts from (eight joint angles). */
  const HomeSeed: seq<real> := [0.4, -0.47298796080251726, -0.885309167697212, 0.9398159739359973,
                                1.477055173112182, -0.5653652160051996, 1.2667744594915047, -1.0417966450715803]

  /** Vertical offsets of the pre-grasp and grasp waypoints above the cube. */
  const PreGraspOffset: real := 0.5
  const GraspOffset: real := 0.2

  /** The result of a solve: the value returned and how many oracle calls
      were made. */
  datatype Outcome = Outcome(sol: IkAnswer, calls: nat)

  /** The answers the oracle gives to the first `n` calls with `req`. */
  function Attempts(oracle: IkOracle, req: IkRequest, n: nat): (s: seq<IkAnswer>)
    ensures |s| == n && forall i :: 0 <= i < n ==> s[i] == oracle(req, i)
  {
    seq(n, i requires 0 <= i < n => oracle(req, i))
  }

  /** The bounded loop `while retry: sol = get_ik(...); if sol: break;
      retry -= 1` run over the answers `s` still to come (one per unit of
      budget left), where `last` is the value `sol` holds now. */
  function Retry(s: seq<IkAnswer>, last: IkAnswer): (o: Outcome)
    ensures o.calls <= |s|
    decreases |s|
  {
    if |s| == 0 then Outcome(last, 0)
    else if Truthy(s[0]) then Outcome(s[0], 1)
    else
      var rest := Retry(s[1..], s[0]);
      Outcome(rest.sol, rest.calls + 1)
  }

  /** What the loop nested in `get_solution` returns for `req`. */
  function Solve(oracle: IkOracle, req: IkRequest): Outcome {
    Retry(Attempts(oracle, req, NestedRetryBudget), NoSolution)
  }

  /** The bounded loop returns the answer of its last call; every earlier
      answer was falsy; and it stopped either on a truthy answer or because
      the budget ran out. With no budget it makes no call and `sol` keeps
      its value. */
  lemma {:induction false} RetryReturnsLastCall(s: seq<IkAnswer>, last: IkAnswer)
    ensures Retry(s, last).calls == 0 <==> |s| == 0
    ensures Retry(s, last).calls == 0 ==> Retry(s, last).sol == last
    ensures Retry(s, last).calls > 0 ==> Retry(s, last).sol == s[Retry(s, last).calls - 1]
    ensures forall j :: 0 <= j < Retry(s, last).calls - 1 ==> !Truthy(s[j])
    ensures Truthy(Retry(s, last).sol) || Retry(s, last).calls == |s| || |s| == 0
    decreases |s|
  {
    if |s| > 0 && !Truthy(s[0]) {
      RetryReturnsLastCall(s[1..], s[0]);
      var o := Retry(s[1..], s[0]);
      forall j | 0 <= j < o.calls
        ensures !Truthy(s[j])
      {
        if j > 0 {
          assert s[j] == s[1..][j - 1];
        }
      }
    }
  }

  /** If the first truthy answer is the `k`-th, the bounded loop makes
      exactly `k + 1` calls and returns that answer. */
  lemma {:induction false} RetryStopsAtFirstTruthy(s: seq<IkAnswer>, last: IkAnswer, k: nat)
    requires k < |s| && Truthy(s[k])
    requires forall j :: 0 <= j < k ==> !Truthy(s[j])
    ensures Retry(s, last) == Outcome(s[k], k + 1)
    decreases k
  {
    if k > 0 {
      forall j | 0 <= j < k - 1
        ensures !Truthy(s[1..][j])
      {
        assert s[1..][j] == s[j + 1];
      }
      RetryStopsAtFirstTruthy(s[1..], s[0], k - 1);
    }
  }

  /** If every answer is falsy, the bounded loop uses its whole budget and
      returns the last (falsy) answer. */
  lemma {:induction false} RetryAllFail(s: seq<IkAnswer>, last: IkAnswer)
    requires |s| > 0
    requires forall j :: 0 <= j < |s| ==> !Truthy(s[j])
    ensures Retry(s, last) == Outcome(s[|s| - 1], |s|)
    decreases |s|
  {
    if |s| > 1 {
      forall j | 0 <= j < |s| - 1
        ensures !Truthy(s[1..][j])
      {
        assert s[1..][j] == s[j + 1];
      }
      RetryAllFail(s[1..], s[0]);
    }
  }

  /** The loop nested in `get_solution` calls the oracle between 1 and 100
      times, returns the answer of its last call, and stops early only on a
      truthy answer. */
  lemma SolveBounds(oracle: IkOracle, req: IkRequest)
    ensures 1 <= Solve(oracle, req).calls <= NestedRetryBudget
    ensures Solve(oracle, req).sol == oracle(req, Solve(oracle, req).calls - 1)
    ensures forall j :: 0 <= j < Solve(oracle, req).calls - 1 ==> !Truthy(oracle(req, j))
    ensures Truthy(Solve(oracle, req).sol) || Solve(oracle, req).calls == NestedRetryBudget
  {
    RetryReturnsLastCall(Attempts(oracle, req, NestedRetryBudget), NoSolution);
  }

  /** If the oracle first gives a truthy answer on call `k` (k <= 100,
      counting from 1), the nested loop makes exactly `k` calls and returns
      that answer. */
  lemma SolveFirstSuccess(oracle: IkOracle, req: IkRequest, k: nat)
    requires 1 <= k <= NestedRetryBudget && Truthy(oracle(req, k - 1))
    requires forall j :: 0 <= j < k - 1 ==> !Truthy(oracle(req, j))
    ensures Solve(oracle, req) == Outcome(oracle(req, k - 1), k)
  {
    RetryStopsAtFirstTruthy(Attempts(oracle, req, NestedRetryBudget), NoSolution, k - 1);
  }

  /** If all 100 calls give falsy answers, the nested loop returns the
      hundredth answer. */
  lemma SolveAllFail(oracle: IkOracle, req: IkRequest)
    requires forall j :: 0 <= j < NestedRetryBudget ==> !Truthy(oracle(req, j))
    ensures Solve(oracle, req) == Outcome(oracle(req, NestedRetryBudget - 1), NestedRetryBudget)
  {
    RetryAllFail(Attempts(oracle, req, NestedRetryBudget), NoSolution);
  }

  /** The `get_track_ik_solution` nested in `get_solution`: the same request
      on every pass, at most 100 passes, leaving the loop on the first truthy
      answer. */
  method BoundedTrackIkSolution(oracle: IkOracle, seed: IkAnswer, trans: seq<real>, rotatedQt: seq<real>)
    returns (sol: IkAnswer, calls: nat)
    requires |trans| >= 3 && |rotatedQt| >= 4
    ensures Outcome(sol, calls) == Solve(oracle, RequestOf(seed, trans, rotatedQt))
    ensures 1 <= calls <= NestedRetryBudget
    ensures sol == oracle(RequestOf(seed, trans, rotatedQt), calls - 1)
    ensures Truthy(sol) || calls == NestedRetryBudget
  {
    var req := RequestOf(seed, trans, rotatedQt);
    ghost var s := Attempts(oracle, req, NestedRetryBudget);
    var retry: nat := NestedRetryBudget;
    sol := NoSolution;
    calls := 0;
    while retry != 0
      invariant calls + retry == NestedRetryBudget
      invariant calls > 0 ==> sol == oracle(req, calls - 1)
      invariant Retry(s, NoSolution) == Outcome(Retry(s[calls..], sol).sol, Retry(s[calls..], sol).calls + calls)
      decreases retry
    {
      sol := oracle(req, calls);
      assert s[calls..][0] == sol;
      assert s[calls..][1..] == s[calls + 1..];
      calls := calls + 1;
      if Truthy(sol) {
        break;
      }
      retry := retry - 1;
    }
    SolveBounds(oracle, req);
  }

  /** `oracle` answers something other than `None` to call `i` and `None`
      to every earlier call. */
  ghost predicate IsFirstAnswer(oracle: IkOracle, req: IkRequest, i: nat) {
    oracle(req, i).Joints? && forall j :: 0 <= j < i ==> oracle(req, j) == NoSolution
  }

  /** At most one call is the first answer, so the top-level loop's
      postcondition determines both its result and its call count. */
  lemma FirstAnswerUnique(oracle: IkOracle, req: IkRequest, i: nat, j: nat)
    requires IsFirstAnswer(oracle, req, i) && IsFirstAnswer(oracle, req, j)
    ensures i == j
  {
  }

  /** The top-level `get_track_ik_solution`. Its loop runs `while sol is
      None`; `retry` is decremented but never tested, so no attempt bound
      applies. It returns the first answer that is not `None`, truthy or not
      (an empty tuple leaves the loop too). The script loops forever when the
      oracle never answers; the requires clause restricts the method to the
      runs that return. */
  method TrackIkSolution(oracle: IkOracle, seed: IkAnswer, trans: seq<real>, rotatedQt: seq<real>)
    returns (sol: IkAnswer, calls: nat)
    requires |trans| >= 3 && |rotatedQt| >= 4
    requires exists k: nat :: oracle(RequestOf(seed, trans, rotatedQt), k).Joints?
    ensures calls >= 1 && IsFirstAnswer(oracle, RequestOf(seed, trans, rotatedQt), calls - 1)
    ensures sol == oracle(RequestOf(seed, trans, rotatedQt), calls - 1)
    ensures sol != NoSolution
  {
    var req := RequestOf(seed, trans, rotatedQt);
    ghost var k: nat :| oracle(req, k).Joints?;
    var retry := TopLevelRetry;
    sol := NoSolution;
    calls := 0;
    while sol == NoSolution
      invariant forall j :: 0 <= j < calls - 1 ==> oracle(req, j) == NoSolution
      invariant calls == 0 ==> sol == NoSolution
      invariant calls > 0 ==> sol == oracle(req, calls - 1)
      invariant calls <= k + 1
      decreases k + 1 - calls
    {
      sol := oracle(req, calls);
      calls := calls + 1;
      if Truthy(sol) {
        break;
      }
      retry := retry - 1;
    }
  }

  /** An oracle that answers `None` to its first `n` calls and the home
      seed from then on. */
  function NoneFor(n: nat): IkOracle {
    (req: IkRequest, i: nat) => if i < n then NoSolution else Joints(HomeSeed)
  }

  /** Any number of `None` answers, including more than the 30 that
      `retry` starts from, is followed by a further call of the top-level
      loop: whatever `n` is, the first answer is the one after them. */
  lemma TopLevelHasNoAttemptBound(n: nat, req: IkRequest)
    ensures IsFirstAnswer(NoneFor(n), req, n)
    ensures n >= NestedRetryBudget ==> Solve(NoneFor(n), req) == Outcome(NoSolution, NestedRetryBudget)
  {
    if n >= NestedRetryBudget {
      SolveAllFail(NoneFor(n), req);
    }
  }

  /** An oracle that always answers with an empty tuple. */
  function EmptyTuple(): IkOracle {
    (req: IkRequest, i: nat) => Joints([])
  }

  /** An empty tuple ends the top-level loop at once (it is not `None`) but
      not the nested one (it is falsy): that one spends its whole budget. */
  lemma EmptyTupleEndsOnlyTopLevel(req: IkRequest)
    ensures IsFirstAnswer(EmptyTuple(), req, 0)
    ensures Solve(EmptyTuple(), req) == Outcome(Joints([]), NestedRetryBudget)
  {
    SolveAllFail(EmptyTuple(), req);
  }

  /** The translation with a vertical offset, as `get_solution` builds
      `trans_1` and `trans_2`. */
  function Raised(trans: seq<real>, dz: real): seq<real>
    requires |trans| >= 3
  {
    [trans[0], trans[1], trans[2] + dz]
  }

  /** `get_solution`: solve the pre-grasp waypoint (0.5 above the cube) from
      the home seed, then the grasp waypoint (0.2 above) seeded with the
      first solve's result, whatever it is, with the same orientation.
      `rotatedQt` is `mat2quat` of the rotated block of `t`, computed by
      library code. */
  method GetSolution(oracle: IkOracle, t: seq<seq<real>>, rotatedQt: seq<real>)
    returns (first: Outcome, second: Outcome)
    requires IsMatrix4(t) && |rotatedQt| >= 4
    ensures first == Solve(oracle, IkRequest(Joints(HomeSeed), t[0][3], t[1][3], t[2][3] + PreGraspOffset,
                                             rotatedQt[0], rotatedQt[1], rotatedQt[2], rotatedQt[3]))
    ensures second == Solve(oracle, IkRequest(first.sol, t[0][3], t[1][3], t[2][3] + GraspOffset,
                                              rotatedQt[0], rotatedQt[1], rotatedQt[2], rotatedQt[3]))
  {
    var seedState := Joints(HomeSeed);
    var trans := Translation(t);
    var trans1 := Raised(trans, PreGraspOffset);
    var sol1, calls1 := BoundedTrackIkSolution(oracle, seedState, trans1, rotatedQt);
    seedState := sol1;
    var trans2 := Raised(trans, GraspOffset);
    var sol2, calls2 := BoundedTrackIkSolution(oracle, seedState, trans2, rotatedQt);
    first, second := Outcome(sol1, calls1), Outcome(sol2, calls2);
  }
}
