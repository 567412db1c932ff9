/**
 The memory the manager and the network functions share, as the arrays and variables the
 code updates in place, and its reading as a state of module Registry.
 */
module SharedMemory {
  import opened Registry
  import Runs

  class Shared {
    const infos: array<Info>
    const nfs: array<Slot>
    const nts: array2<nat>
    const num: array<nat>
    const avail: array<nat>
    var numNfs: nat
    var nextId: nat
    var ring: seq<Msg>
    ghost var procs: seq<Process>

    /** The zeroed memory zones of init, and the first id set by main: id 0 is reserved. */
    constructor ()
      ensures WellFormed() && Runs.Initial(Abs())
      ensures fresh(infos) && fresh(nfs) && fresh(nts) && fresh(num) && fresh(avail)
    {
      infos := new Info[MAX_NFS](i => Info(0, 0, WaitingForId, 0, 0));
      nfs := new Slot[MAX_NFS](i requires i >= 0 => Slot(None, i, 0, 0, 0, 0, []));
      nts := new nat[MAX_NTS, MAX_NFS_PER_NT]((t, k) => 0);
      num := new nat[MAX_NTS](t => 0);
      avail := new nat[MAX_NTS](t => 0);
      numNfs, nextId, ring := 0, 1, [];
      procs := seq(MAX_NFS, h => Free);
    }

    ghost predicate WellFormed()
      reads this
    {
      infos.Length == nfs.Length == MAX_NFS && |procs| == MAX_NFS &&
      nts.Length0 == num.Length == avail.Length == MAX_NTS && nts.Length1 == MAX_NFS_PER_NT &&
      num != avail
    }

    function Row(t: nat): (r: seq<nat>)
      requires t < nts.Length0
      reads nts
      ensures |r| == nts.Length1
    {
      seq(nts.Length1, k requires 0 <= k < nts.Length1 reads nts => nts[t, k])
    }

    function Rows(): (r: seq<seq<nat>>)
      reads nts
      ensures |r| == nts.Length0
      ensures forall t :: 0 <= t < |r| ==> |r[t]| == nts.Length1
    {
      seq(nts.Length0, t requires 0 <= t < nts.Length0 reads nts => Row(t))
    }

    /** The state the memory holds. */
    ghost function Abs(): (s: State)
      requires WellFormed()
      reads this, infos, nfs, nts, num, avail
      ensures Shape(s)
    {
      State(infos[..], procs, nfs[..], Rows(), num[..], avail[..], numNfs, nextId, ring)
    }
  }
}
