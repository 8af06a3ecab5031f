/** Bringing the devices up (virtDevInitAll and virtDevInit): every queue reset, nothing pending, nothing to tell. */
module Boot {
  import opened Bits
  import opened QueueRegs
  import opened VirtIrqs
  import opened PendingList
  import opened VirtQueues
  import opened Manager
  import M = Machine

  /** What DECLARE_VIRTDEV fixes about a device. */
  datatype DevSpec = DevSpec(devId: u16, featLo: u32, featHi: u32, config: M.ConfigSpace, hw: Hardware, vqn: nat)

  /** The registers of n reset queues. */
  function ResetQueues(n: nat): (qs: seq<Queue>)
    ensures |qs| == n && forall i :: 0 <= i < n ==> qs[i] == RESET_QUEUE
  {
    seq(n, i => RESET_QUEUE)
  }

  function ResetDev(spec: DevSpec): M.Dev {
    M.Dev(spec.devId, spec.featLo, spec.featHi, spec.config, 0, 0, 0, 0, ResetQueues(spec.vqn))
  }

  function ResetMachine(specs: seq<DevSpec>): M.Machine {
    M.Machine(seq(|specs|, i requires 0 <= i < |specs| => ResetDev(specs[i])), RESET_VIRQS, [])
  }

  /** What a guest finds after boot: nothing set, nothing pending, every queue asleep with a single slot. */
  lemma BootState(specs: seq<DevSpec>, d: nat, q: nat)
    requires d < |specs| && q < specs[d].vqn
    ensures var m := ResetMachine(specs);
            && |m.devs| == |specs| && |m.devs[d].vqs| == specs[d].vqn && m.pending == []
            && Shaped(m.virqs) && !m.virqs.event
            && (forall b, mode :: 0 <= b < 4 && 0 <= mode < 2 ==> m.virqs.banks[mode][b] == 0)
            && M.ReadReg(m, d, 4 * 0).1 == specs[d].devId && M.ReadReg(m, d, 4 * 2).1 == 0
            && M.ReadReg(m, d, 4 * 3).1 == specs[d].featLo && M.ReadReg(m, d, 4 * 4).1 == specs[d].featHi
            && M.ReadReg(m, d, 4 * 5).1 == 0 && M.ReadReg(m, d, 4 * 6).1 == 0 && M.ReadReg(m, d, 4 * 7).1 == 0
            && m.devs[d].config == specs[d].config
            && var vq := m.devs[d].vqs[q];
               && Size(vq) == 1 && vq.ready == 0 && vq.availIdx == 0 && vq.usedIdx == 0
               && vq.qDesc == 0 && vq.qAvail == 0 && vq.qUsed == 0
  {
    hide And, Shr;
    M.Unpacked(0);
    M.Unpacked(8);
    M.Unpacked(12);
    M.Unpacked(16);
    M.Unpacked(20);
    M.Unpacked(24);
    M.Unpacked(28);
  }

  /** Queue q of device d is freshly initialised and its node is not in any list. */
  ghost predicate Ready(vq: VirtQueue, d: nat, q: nat)
    reads vq, vq.node
  {
    && vq.owner == d && vq.id == q && vq.Regs() == RESET_QUEUE
    && vq.node.home == (d, q) && vq.node.prev == vq.node && vq.node.next == vq.node
  }

  /** virtDevInit: number the device, initialise its queues, reset its registers. */
  method InitDevice(spec: DevSpec, i: nat) returns (dev: VirtDev)
    ensures fresh(dev) && dev.id == i && |dev.vqs| == spec.vqn && dev.Matches(ResetDev(spec)) && dev.hw == spec.hw
    ensures forall q: nat :: q < |dev.vqs| ==> fresh(dev.vqs[q]) && fresh(dev.vqs[q].node) && Ready(dev.vqs[q], i, q)
  {
    var queues: seq<VirtQueue> := [];
    for q := 0 to spec.vqn
      invariant |queues| == q
      invariant forall p: nat :: p < q ==> fresh(queues[p]) && fresh(queues[p].node) && Ready(queues[p], i, p)
    {
      var vq := new VirtQueue(i, q);
      queues := queues + [vq];
    }
    dev := new VirtDev(i, spec.devId, spec.featLo, spec.featHi, spec.config, spec.hw, queues);
  }

  /** Device i is as its specification says, numbered, and all its queues are ready for a list over the nodes. */
  ghost predicate Up(dev: VirtDev, spec: DevSpec, i: nat, nodes: set<ListNode>)
    reads dev, dev.vqs, set q: nat | q < |dev.vqs| :: dev.vqs[q].node
  {
    && dev.id == i && |dev.vqs| == spec.vqn && dev.Matches(ResetDev(spec)) && dev.hw == spec.hw
    && forall q: nat :: q < |dev.vqs| ==> Ready(dev.vqs[q], i, q) && dev.vqs[q].node in nodes
  }

  /** virtDevInitAll: whatever devices are linked in, the manager comes up in its reset state. */
  method InitAll(specs: seq<DevSpec>) returns (mgr: VirtManager)
    ensures fresh(mgr) && mgr.Valid() && mgr.model == ResetMachine(specs)
    ensures |mgr.devs| == |specs| && forall i: nat :: i < |specs| ==> mgr.devs[i].hw == specs[i].hw
  {
    var irqs := new VirtIrq();
    var devs: seq<VirtDev> := [];
    ghost var nodes: set<ListNode> := {};
    for i := 0 to |specs|
      invariant |devs| == i
      invariant irqs.Valid() && irqs.model == RESET_VIRQS && fresh(irqs) && fresh(irqs.pendingVirq)
      invariant forall n :: n in nodes ==> fresh(n) && n.prev == n && n.next == n
      invariant forall j: nat :: j < i ==> Up(devs[j], specs[j], j, nodes)
    {
      var dev := InitDevice(specs[i], i);
      nodes := nodes + set q: nat | q < |dev.vqs| :: dev.vqs[q].node;
      devs := devs + [dev];
    }
    var list := new PendingList(nodes);
    mgr := new VirtManager(devs, ResetMachine(specs), list, irqs);
  }
}
