/** A run over a link that keeps the order of datagrams, loses two and repeats none, in which
    the retransmitter nevertheless ends the process: an ack that names packet 1 as missing is
    followed by data that shows packet 1 consumed, and both are handled before the
    retransmitter that the ack asked for gets to run. */
module UdtExitRun {
  import opened Bytes
  import opened Common
  import opened MissLists
  import opened SequenceNumbers
  import opened UdtEndpoint
  import opened UdtWorld
  import opened UdtSafety
  import opened UdtWrapAround
  import opened UdtInOrder
  import opened UdtTheorems

  const WINDOW := 10

  /** The steps keep the order of datagrams, stay in reach and lead to the world w. */
  ghost predicate Leads(steps: seq<Step>, w: World) {
    InOrder(steps) && RunInReach(WINDOW, WINDOW, steps) && Exec(Unbounded, Init(WINDOW, WINDOW), steps) == w
  }

  lemma Extend(steps: seq<Step>, w: World, step: Step, w': World) returns (longer: seq<Step>)
    requires Leads(steps, w) && InOrderStep(step) && StepInReach(w, step) && Next(Unbounded, w, step) == w'
    ensures longer == steps + [step] && Leads(longer, w')
  {
    longer := steps + [step];
    assert longer[..|steps|] == steps;
  }

  // ------------------------------------------------------------ the halves along the run

  function TxA0(): Tx {
    Tx(0, [], 1, 1, AckPacket(1, 1, 0, 0, []),
       AckPacket(1, 0, 0, 0, []), [], true, true, false, [], None, false)
  }

  function RxA0(): Rx {
    Rx(AckPacket(1, 10, 0, 0, []), [], AckPacket(0, 0, 0, 0, []), false)
  }

  function TxB0(): Tx {
    Tx(0, [], 1, 1, AckPacket(1, 1, 0, 0, []),
       AckPacket(1, 0, 0, 0, []), [], true, true, false, [], None, false)
  }

  function RxB0(): Rx {
    Rx(AckPacket(1, 10, 0, 0, []), [], AckPacket(0, 0, 0, 0, []), false)
  }

  function RxB1(): Rx {
    Rx(AckPacket(1, 10, 0, 1, []), [], AckPacket(0, 0, 0, 0, []), false)
  }

  function TxA1(): Tx {
    Tx(0, [], 2, 10, AckPacket(1, 10, 0, 1, []),
       AckPacket(0, 0, 0, 1, []), [], true, true, false, [], None, false)
  }

  function TxA2(): Tx {
    Tx(0, [], 2, 10, AckPacket(1, 10, 0, 1, []),
       AckPacket(0, 0, 0, 1, []), [], true, true, false, [7], None, false)
  }

  function TxA3(): Tx {
    Tx(1, [], 2, 10, AckPacket(1, 10, 0, 1, []),
       AckPacket(0, 0, 0, 1, []), [], true, true, false, [], Some(DataPacket(1, 1, [7], -4)), false)
  }

  function TxA4(): Tx {
    Tx(1, [DataPacket(1, 1, [7], -4)], 2, 10, AckPacket(1, 10, 0, 1, []),
       AckPacket(0, 0, 0, 1, []), [], true, true, false, [], None, false)
  }

  function TxA5(): Tx {
    Tx(1, [DataPacket(1, 1, [7], -4)], 2, 10, AckPacket(1, 10, 0, 1, []),
       AckPacket(0, 0, 0, 1, []), [], true, true, false, [8], None, false)
  }

  function TxA6(): Tx {
    Tx(2, [DataPacket(1, 1, [7], -4)], 2, 10, AckPacket(1, 10, 0, 1, []),
       AckPacket(0, 0, 0, 1, []), [], true, true, false, [], Some(DataPacket(1, 2, [8], -4)), false)
  }

  function TxA7(): Tx {
    Tx(2, [DataPacket(1, 1, [7], -4), DataPacket(1, 2, [8], -4)], 2, 10, AckPacket(1, 10, 0, 1, []),
       AckPacket(0, 0, 0, 1, []), [], true, true, false, [], None, false)
  }

  function RxB2(): Rx {
    Rx(AckPacket(1, 10, 2, 1, [Range(1, 1)]), [DataPacket(1, 2, [8], 0)], AckPacket(0, 0, 0, 0, []), false)
  }

  function RxB3(): Rx {
    Rx(AckPacket(1, 10, 2, 2, [Range(1, 1)]), [DataPacket(1, 2, [8], 0)], AckPacket(0, 0, 0, 0, []), false)
  }

  function TxA8(): Tx {
    Tx(2, [DataPacket(1, 1, [7], -4), DataPacket(1, 2, [8], -4)], 1, 10, AckPacket(1, 10, 0, 1, []),
       AckPacket(1, 0, 0, 1, []), [Range(1, 1)], false, false, true, [], None, false)
  }

  function TxA9(): Tx {
    Tx(2, [DataPacket(1, 1, [7], 2), DataPacket(1, 2, [8], -4)], 1, 10, AckPacket(1, 10, 0, 1, []),
       AckPacket(1, 0, 0, 1, []), [], false, false, false, [], None, false)
  }

  function RxB4(): Rx {
    Rx(AckPacket(1, 10, 2, 2, []),
       [DataPacket(1, 1, [7], 0), DataPacket(1, 2, [8], 0)], AckPacket(0, 0, 0, 0, []), false)
  }

  function RxB5(): Rx {
    Rx(AckPacket(2, 10, 2, 2, []), [DataPacket(1, 2, [8], 0)], AckPacket(0, 0, 0, 0, []), false)
  }

  function RxB6(): Rx {
    Rx(AckPacket(3, 10, 2, 2, []), [], AckPacket(0, 0, 0, 0, []), false)
  }

  function TxB1(): Tx {
    Tx(0, [], 1, 1, AckPacket(1, 1, 0, 0, []),
       AckPacket(1, 0, 0, 0, []), [], true, true, false, [9], None, false)
  }

  function TxB2(): Tx {
    Tx(1, [], 1, 1, AckPacket(1, 1, 0, 0, []),
       AckPacket(1, 0, 0, 0, []), [], true, true, false, [], Some(DataPacket(3, 1, [9], -5)), false)
  }

  function TxB3(): Tx {
    Tx(1, [DataPacket(3, 1, [9], -5)], 1, 1, AckPacket(1, 1, 0, 0, []),
       AckPacket(1, 0, 0, 0, []), [], true, true, false, [], None, false)
  }

  function TxA10(): Tx {
    Tx(2, [DataPacket(1, 1, [7], 2), DataPacket(1, 2, [8], -4)], 2, 10, AckPacket(1, 10, 2, 2, [Range(1, 1)]),
       AckPacket(2, 0, 0, 2, []), [Range(1, 1)], false, true, true, [], None, false)
  }

  function TxA11(): Tx {
    Tx(2, [], 2, 10, AckPacket(1, 10, 2, 2, [Range(1, 1)]),
       AckPacket(3, 0, 0, 2, []), [Range(1, 1)], false, true, true, [], None, false)
  }

  function RxA1(): Rx {
    Rx(AckPacket(1, 10, 1, 0, []), [DataPacket(3, 1, [9], 0)], AckPacket(0, 0, 0, 0, []), false)
  }

  function TxA12(): Tx {
    Tx(2, [], 2, 10, AckPacket(1, 10, 2, 2, [Range(1, 1)]),
       AckPacket(3, 0, 0, 2, []), [], false, true, false, [], None, true)
  }

  // ------------------------------------------------------------ the run, step by step

  function World0(): World {
    World(Side(TxA0(), RxA0(), [], [], [], [], []),
          Side(TxB0(), RxB0(), [], [], [], [], []))
  }

  lemma Reach0() returns (steps: seq<Step>)
    ensures Leads(steps, World0())
  {
    steps := [];
  }

  // the receiver announces its window, and the sender's grows to two packets

  function World1(): World {
    World(Side(TxA0(), RxA0(), [Ack(AckPacket(1, 10, 0, 1, []))], [], [], [], []),
          Side(TxB0(), RxB1(), [], [], [], [], [1]))
  }

  lemma Reach1() returns (steps: seq<Step>)
    ensures Leads(steps, World1())
  {
    var before := Reach0();
    steps := Extend(before, World0(), Act(false, OnSyn), World1());
  }

  function World2(): World {
    World(Side(TxA1(), RxA0(), [], [], [], [], []),
          Side(TxB0(), RxB1(), [Ack2(AckPacket(0, 0, 0, 1, []))], [], [], [], [1]))
  }

  lemma Handled2()
    ensures HandleAck(Unbounded, TxA0(), AckPacket(1, 10, 0, 1, [])) ==
            TxEffect(TxA1(), [Ack2(AckPacket(0, 0, 0, 1, []))])
  {
  }

  lemma Reach2() returns (steps: seq<Step>)
    ensures Leads(steps, World2())
  {
    var before := Reach1();
    Handled2();
    steps := Extend(before, World1(), Act(true, Receive(0)), World2());
  }

  function World3(): World {
    World(Side(TxA1(), RxA0(), [], [], [], [], []),
          Side(TxB0(), RxB1(), [], [], [], [], [1]))
  }

  lemma Reach3() returns (steps: seq<Step>)
    ensures Leads(steps, World3())
  {
    var before := Reach2();
    steps := Extend(before, World2(), Lose(false, 0), World3());
  }

  // packet 1 is sent and lost

  function World4(): World {
    World(Side(TxA2(), RxA0(), [], [7], [], [], []),
          Side(TxB0(), RxB1(), [], [], [], [], [1]))
  }

  lemma Reach4() returns (steps: seq<Step>)
    ensures Leads(steps, World4())
  {
    var before := Reach3();
    steps := Extend(before, World3(), Act(true, Write([7])), World4());
  }

  function World5(): World {
    World(Side(TxA3(), RxA0(), [], [7], [], [[7]], []),
          Side(TxB0(), RxB1(), [], [], [], [], [1]))
  }

  lemma Reach5() returns (steps: seq<Step>)
    ensures Leads(steps, World5())
  {
    var before := Reach4();
    var unsent: seq<U8> := [7];
    assert unsent[..1] == unsent && unsent[1..] == [];
    steps := Extend(before, World4(), Act(true, PackNext), World5());
  }

  function World6(): World {
    World(Side(TxA4(), RxA0(), [], [7], [], [[7]], []),
          Side(TxB0(), RxB1(), [Data(1, 1, [7])], [], [], [], [1]))
  }

  lemma Reach6() returns (steps: seq<Step>)
    ensures Leads(steps, World6())
  {
    var before := Reach5();
    steps := Extend(before, World5(), Act(true, CommitPending), World6());
  }

  function World7(): World {
    World(Side(TxA4(), RxA0(), [], [7], [], [[7]], []),
          Side(TxB0(), RxB1(), [], [], [], [], [1]))
  }

  lemma Reach7() returns (steps: seq<Step>)
    ensures Leads(steps, World7())
  {
    var before := Reach6();
    steps := Extend(before, World6(), Lose(false, 0), World7());
  }

  // packet 2 is sent and arrives; 1 is nacked and then reported by an ack

  function World8(): World {
    World(Side(TxA5(), RxA0(), [], [7, 8], [], [[7]], []),
          Side(TxB0(), RxB1(), [], [], [], [], [1]))
  }

  lemma Reach8() returns (steps: seq<Step>)
    ensures Leads(steps, World8())
  {
    var before := Reach7();
    steps := Extend(before, World7(), Act(true, Write([8])), World8());
  }

  function World9(): World {
    World(Side(TxA6(), RxA0(), [], [7, 8], [], [[7], [8]], []),
          Side(TxB0(), RxB1(), [], [], [], [], [1]))
  }

  lemma Reach9() returns (steps: seq<Step>)
    ensures Leads(steps, World9())
  {
    var before := Reach8();
    var unsent: seq<U8> := [8];
    assert unsent[..1] == unsent && unsent[1..] == [];
    steps := Extend(before, World8(), Act(true, PackNext), World9());
  }

  function World10(): World {
    World(Side(TxA7(), RxA0(), [], [7, 8], [], [[7], [8]], []),
          Side(TxB0(), RxB1(), [Data(1, 2, [8])], [], [], [], [1]))
  }

  lemma Reach10() returns (steps: seq<Step>)
    ensures Leads(steps, World10())
  {
    var before := Reach9();
    steps := Extend(before, World9(), Act(true, CommitPending), World10());
  }

  function World11(): World {
    World(Side(TxA7(), RxA0(), [Nack(1, 1, 1)], [7, 8], [], [[7], [8]], []),
          Side(TxB0(), RxB2(), [], [], [], [], [1]))
  }

  lemma Reach11() returns (steps: seq<Step>)
    ensures Leads(steps, World11())
  {
    var before := Reach10();
    steps := Extend(before, World10(), Act(false, Receive(0)), World11());
  }

  function World12(): World {
    World(Side(TxA7(), RxA0(),
                 [Nack(1, 1, 1), Ack(AckPacket(1, 10, 2, 2, [Range(1, 1)]))], [7, 8], [], [[7], [8]], []),
          Side(TxB0(), RxB3(), [], [], [], [], [1, 1]))
  }

  lemma Reach12() returns (steps: seq<Step>)
    ensures Leads(steps, World12())
  {
    var before := Reach11();
    steps := Extend(before, World11(), Act(false, OnSyn), World12());
  }

  // the nack brings packet 1 again

  function World13(): World {
    World(Side(TxA8(), RxA0(), [Ack(AckPacket(1, 10, 2, 2, [Range(1, 1)]))], [7, 8], [], [[7], [8]], []),
          Side(TxB0(), RxB3(), [], [], [], [], [1, 1]))
  }

  lemma Handled13()
    ensures HandleNack(Unbounded, TxA7(), 1, 1, 1) == TxA8()
  {
  }

  lemma Reach13() returns (steps: seq<Step>)
    ensures Leads(steps, World13())
  {
    var before := Reach12();
    Handled13();
    steps := Extend(before, World12(), Act(true, Receive(0)), World13());
  }

  function World14(): World {
    World(Side(TxA9(), RxA0(), [Ack(AckPacket(1, 10, 2, 2, [Range(1, 1)]))], [7, 8], [], [[7], [8]], []),
          Side(TxB0(), RxB3(), [Data(1, 1, [7])], [], [], [], [1, 1]))
  }

  lemma Handled14()
    ensures Retransmit(Unbounded, TxA8()) == TxEffect(TxA9(), [Data(1, 1, [7])])
  {
  }

  lemma Reach14() returns (steps: seq<Step>)
    ensures Leads(steps, World14())
  {
    var before := Reach13();
    Handled14();
    steps := Extend(before, World13(), Act(true, RunRetransmit), World14());
  }

  // both packets arrive and are read

  function World15(): World {
    World(Side(TxA9(), RxA0(), [Ack(AckPacket(1, 10, 2, 2, [Range(1, 1)]))], [7, 8], [], [[7], [8]], []),
          Side(TxB0(), RxB4(), [], [], [], [], [1, 1]))
  }

  lemma Reach15() returns (steps: seq<Step>)
    ensures Leads(steps, World15())
  {
    var before := Reach14();
    steps := Extend(before, World14(), Act(false, Receive(0)), World15());
  }

  function World16(): World {
    World(Side(TxA9(), RxA0(), [Ack(AckPacket(1, 10, 2, 2, [Range(1, 1)]))], [7, 8], [], [[7], [8]], []),
          Side(TxB0(), RxB5(), [], [], [7], [], [1, 1]))
  }

  lemma Reach16() returns (steps: seq<Step>)
    ensures Leads(steps, World16())
  {
    var before := Reach15();
    steps := Extend(before, World15(), Act(false, Read(1)), World16());
  }

  function World17(): World {
    World(Side(TxA9(), RxA0(), [Ack(AckPacket(1, 10, 2, 2, [Range(1, 1)]))], [7, 8], [], [[7], [8]], []),
          Side(TxB0(), RxB6(), [], [], [7, 8], [], [1, 1]))
  }

  lemma Reach17() returns (steps: seq<Step>)
    ensures Leads(steps, World17())
  {
    var before := Reach16();
    steps := Extend(before, World16(), Act(false, Read(1)), World17());
  }

  // the receiver sends data of its own, which shows that it has read both

  function World18(): World {
    World(Side(TxA9(), RxA0(), [Ack(AckPacket(1, 10, 2, 2, [Range(1, 1)]))], [7, 8], [], [[7], [8]], []),
          Side(TxB1(), RxB6(), [], [9], [7, 8], [], [1, 1]))
  }

  lemma Reach18() returns (steps: seq<Step>)
    ensures Leads(steps, World18())
  {
    var before := Reach17();
    steps := Extend(before, World17(), Act(false, Write([9])), World18());
  }

  function World19(): World {
    World(Side(TxA9(), RxA0(), [Ack(AckPacket(1, 10, 2, 2, [Range(1, 1)]))], [7, 8], [], [[7], [8]], []),
          Side(TxB2(), RxB6(), [], [9], [7, 8], [[9]], [1, 1]))
  }

  lemma Reach19() returns (steps: seq<Step>)
    ensures Leads(steps, World19())
  {
    var before := Reach18();
    var unsent: seq<U8> := [9];
    assert unsent[..1] == unsent && unsent[1..] == [];
    steps := Extend(before, World18(), Act(false, PackNext), World19());
  }

  function World20(): World {
    World(Side(TxA9(), RxA0(),
                 [Ack(AckPacket(1, 10, 2, 2, [Range(1, 1)])), Data(3, 1, [9])], [7, 8], [], [[7], [8]], []),
          Side(TxB3(), RxB6(), [], [9], [7, 8], [[9]], [1, 1]))
  }

  lemma Reach20() returns (steps: seq<Step>)
    ensures Leads(steps, World20())
  {
    var before := Reach19();
    steps := Extend(before, World19(), Act(false, CommitPending), World20());
  }

  // the sender handles the ack, then the data, and only then the retransmission

  function World21(): World {
    World(Side(TxA10(), RxA0(), [Data(3, 1, [9])], [7, 8], [], [[7], [8]], []),
          Side(TxB3(), RxB6(), [], [9], [7, 8], [[9]], [1, 1]))
  }

  lemma Handled21()
    ensures HandleAck(Unbounded, TxA9(), AckPacket(1, 10, 2, 2, [Range(1, 1)])) ==
            TxEffect(TxA10(), [])
  {
  }

  lemma Reach21() returns (steps: seq<Step>)
    ensures Leads(steps, World21())
  {
    var before := Reach20();
    Handled21();
    steps := Extend(before, World20(), Act(true, Receive(0)), World21());
  }

  function World22(): World {
    World(Side(TxA11(), RxA1(), [], [7, 8], [], [[7], [8]], []),
          Side(TxB3(), RxB6(), [], [9], [7, 8], [[9]], [1, 1]))
  }

  lemma Reach22() returns (steps: seq<Step>)
    ensures Leads(steps, World22())
  {
    var before := Reach21();
    steps := Extend(before, World21(), Act(true, Receive(0)), World22());
  }

  function World23(): World {
    World(Side(TxA12(), RxA1(), [], [7, 8], [], [[7], [8]], []),
          Side(TxB3(), RxB6(), [], [9], [7, 8], [[9]], [1, 1]))
  }

  lemma Handled23()
    ensures Retransmit(Unbounded, TxA11()) == TxEffect(TxA12(), [])
  {
  }

  lemma Reach23() returns (steps: seq<Step>)
    ensures Leads(steps, World23())
  {
    var before := Reach22();
    Handled23();
    steps := Extend(before, World22(), Act(true, RunRetransmit), World23());
  }

  /** Some run that keeps the order of datagrams, repeats none and stays in reach ends, on 16-bit
      numbers, in the exit of the retransmitter. */
  lemma InOrderRunCanExit() returns (steps: seq<Step>)
    ensures InOrder(steps) && Admissible(WINDOW, WINDOW, steps)
    ensures Exec(Circular, Init(WINDOW, WINDOW), steps).a.tx.exited
  {
    steps := Reach23();
    WrapAroundIsInvisible(WINDOW, WINDOW, steps);
  }
}
