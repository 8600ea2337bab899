/** Codes of devices on a wired-AND bus, and what a triplet of the ROM search tells about them. */
module OwBus {

  type Code = seq<bool>

  /** The answers a triplet can give, with the host's numbering. */
  datatype Triplet = Both | AllOnes | AllZeros | Nobody

  function Answer(active: set<Code>, i: nat): Triplet
    requires forall r :: r in active ==> i < |r|
  {
    var one := exists r :: r in active && r[i];
    var zero := exists r :: r in active && !r[i];
    if one && zero then Both else if one then AllOnes else if zero then AllZeros else Nobody
  }

  /** The devices left listening after bit was written at position i. */
  function Chosen(active: set<Code>, i: nat, bit: bool): set<Code> {
    set r | r in active && |r| > i && r[i] == bit
  }

  /** Unless nobody answered, the written bit keeps somebody listening. */
  lemma ChosenSome(active: set<Code>, i: nat, dir: bool)
    requires forall r :: r in active ==> i < |r|
    ensures Answer(active, i) == Nobody <==> active == {}
    ensures active != {} ==> Chosen(active, i, Written(Answer(active, i), dir)) != {}
  {
    if r :| r in active {
      var bit := Written(Answer(active, i), dir);
      assert exists q :: q in active && q[i] == bit by { assert r[i] || !r[i]; }
      var q :| q in active && q[i] == bit;
      assert q in Chosen(active, i, bit);
    }
  }

  /** The bit the triplet writes back: what all devices share, or the host's choice. */
  function Written(answer: Triplet, dir: bool): bool {
    match answer
    case Both => dir
    case AllOnes => true
    case AllZeros => false
    case Nobody => dir
  }

  lemma BothFork(active: set<Code>, i: nat)
    requires forall r :: r in active ==> i < |r|
    ensures Answer(active, i) == Both ==> exists r :: r in active && !r[i]
  {
  }
}
