/**
 * SymmetricHebbianLearningRule: the weight change for a spike-time difference
 * is the rule's kernel `g(deltaT)` scaled by `aPlus` where the kernel is
 * positive and by `aMinus` where it is negative. The kernel `computeG` belongs
 * to the parent class and is a parameter here.
 */
module SymmetricHebbianLearningRule {

  function ComputeDeltaW(computeG: real -> real, aPlus: real, aMinus: real, deltaT: real): (r: real)
    ensures computeG(deltaT) > 0.0 ==> r == aPlus * computeG(deltaT)
    ensures computeG(deltaT) < 0.0 ==> r == aMinus * computeG(deltaT)
    ensures computeG(deltaT) == 0.0 ==> r == 0.0
  {
    var g := computeG(deltaT);
    if g > 0.0 then aPlus * g
    else if g < 0.0 then aMinus * g
    else 0.0
  }

  /** The result depends on the kernel only through its value at `deltaT`. */
  lemma DeltaWDependsOnlyOnKernelValue(g1: real -> real, g2: real -> real, aPlus: real, aMinus: real, d1: real, d2: real)
    requires g1(d1) == g2(d2)
    ensures ComputeDeltaW(g1, aPlus, aMinus, d1) == ComputeDeltaW(g2, aPlus, aMinus, d2)
  {
  }

  /** With positive amplitudes the weight change has the sign of the kernel. */
  lemma DeltaWHasKernelSign(computeG: real -> real, aPlus: real, aMinus: real, deltaT: real)
    requires aPlus > 0.0 && aMinus > 0.0
    ensures ComputeDeltaW(computeG, aPlus, aMinus, deltaT) > 0.0 <==> computeG(deltaT) > 0.0
    ensures ComputeDeltaW(computeG, aPlus, aMinus, deltaT) < 0.0 <==> computeG(deltaT) < 0.0
    ensures ComputeDeltaW(computeG, aPlus, aMinus, deltaT) == 0.0 <==> computeG(deltaT) == 0.0
  {
    var g := computeG(deltaT);
    if g > 0.0 {
      assert aPlus * g > 0.0;
    } else if g < 0.0 {
      assert aMinus * g < 0.0;
    }
  }
}
