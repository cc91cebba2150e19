/**
 * The launch loop of the supervisor: worker `i` for every `i` in `1..=count`,
 * each started with the same command line.
 */
module Workers {
  import opened Invocation

  /** One worker to launch: its number and its command line. */
  datatype WorkerSpec = WorkerSpec(id: nat, command: Command)

  /** The workers the supervisor launches, in launch order. */
  method Plan(a: Args) returns (specs: seq<WorkerSpec>)
    ensures |specs| == a.count
    ensures forall k :: 0 <= k < |specs| ==> specs[k].id == k + 1
    ensures forall k :: 0 <= k < |specs| ==> specs[k].command == Build(FlagsOf(a))
  {
    specs := [];
    var i: nat := 1;
    while i <= a.count
      invariant 1 <= i <= a.count + 1
      invariant |specs| == i - 1
      invariant forall k :: 0 <= k < |specs| ==> specs[k].id == k + 1
      invariant forall k :: 0 <= k < |specs| ==> specs[k].command == Build(FlagsOf(a))
    {
      specs := specs + [WorkerSpec(i, Build(FlagsOf(a)))];
      i := i + 1;
    }
  }

  /** The ids a plan uses. */
  function IdSet(specs: seq<WorkerSpec>): set<nat> {
    set k | 0 <= k < |specs| :: specs[k].id
  }

  /** Worker ids are exactly `1..count`: every one of them once, nothing else. */
  lemma IdsAreRange(specs: seq<WorkerSpec>, count: nat)
    requires |specs| == count
    requires forall k :: 0 <= k < |specs| ==> specs[k].id == k + 1
    ensures forall n :: n in IdSet(specs) <==> 1 <= n <= count
    ensures forall j, k :: 0 <= j < k < |specs| ==> specs[j].id != specs[k].id
    ensures count == 0 ==> specs == []
  {
    var ids := IdSet(specs);
    forall n | 1 <= n <= count
      ensures n in ids
    {
      assert specs[n - 1].id == n;
    }
  }
}
