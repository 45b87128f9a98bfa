/**
 * The linear Kalman filter equations shared by every generation of the estimator: the
 * prediction `F x`, `F P F^T + Q` and the update with innovation `z - H x`, innovation
 * covariance `S = H P H^T + R`, gain `K = P H^T S^-1`, mean `x + K nu` and covariance
 * `P - K S K^T`. `sd` is the state dimension, `md` the measurement dimension.
 */
module KalmanMath {
  import opened LinAlg

  function PredictMean(f: Matrix, x: Vector, sd: nat): (r: Vector)
    requires IsMatrix(f, sd, sd) && |x| == sd
    ensures |r| == sd
  {
    MatVec(f, x)
  }

  function PredictCovar(f: Matrix, p: Matrix, q: Matrix, sd: nat): (r: Matrix)
    requires IsMatrix(f, sd, sd) && IsMatrix(p, sd, sd) && IsMatrix(q, sd, sd)
    ensures IsMatrix(r, sd, sd)
  {
    MatAdd(Congruence(f, p, sd, sd), q)
  }

  function Innovation(z: Vector, h: Matrix, x: Vector, md: nat, sd: nat): (r: Vector)
    requires IsMatrix(h, md, sd) && |x| == sd && |z| == md
    ensures |r| == md
  {
    SubV(z, MatVec(h, x))
  }

  function InnovationCovar(h: Matrix, p: Matrix, r: Matrix, md: nat, sd: nat): (s: Matrix)
    requires IsMatrix(h, md, sd) && IsMatrix(p, sd, sd) && IsMatrix(r, md, md)
    ensures IsMatrix(s, md, md)
  {
    MatAdd(Congruence(h, p, md, sd), r)
  }

  function Gain(p: Matrix, h: Matrix, sInv: Matrix, md: nat, sd: nat): (k: Matrix)
    requires IsMatrix(h, md, sd) && IsMatrix(p, sd, sd) && IsMatrix(sInv, md, md)
    ensures IsMatrix(k, sd, md)
  {
    MatMul(MatMul(p, Transpose(h, sd), md), sInv, md)
  }

  function UpdateMean(x: Vector, k: Matrix, nu: Vector, md: nat, sd: nat): (r: Vector)
    requires IsMatrix(k, sd, md) && |x| == sd && |nu| == md
    ensures |r| == sd
  {
    AddV(x, MatVec(k, nu))
  }

  function UpdateCovar(p: Matrix, k: Matrix, s: Matrix, md: nat, sd: nat): (r: Matrix)
    requires IsMatrix(p, sd, sd) && IsMatrix(k, sd, md) && IsMatrix(s, md, md)
    ensures IsMatrix(r, sd, sd)
  {
    MatSub(p, Congruence(k, s, sd, md))
  }

  // ---------------------------------------------------------------------------------------

  /** With `F = I` and `Q = 0` the prediction is the prior. */
  lemma PredictIdentity(x: Vector, p: Matrix, sd: nat)
    requires |x| == sd && IsMatrix(p, sd, sd)
    ensures PredictMean(Identity(sd), x, sd) == x
    ensures PredictCovar(Identity(sd), p, ZeroMatrix(sd, sd), sd) == p
  {
    MatVecIdentity(sd, x);
    MatMulIdentityLeft(p, sd, sd);
    TransposeIdentity(sd);
    MatMulIdentityRight(p, sd);
    MatAddZero(p, sd, sd);
  }

  /** A measurement equal to the predicted measurement `H x` leaves the mean where it was. */
  lemma ZeroInnovation(x: Vector, k: Matrix, z: Vector, h: Matrix, md: nat, sd: nat)
    requires IsMatrix(h, md, sd) && IsMatrix(k, sd, md) && |x| == sd
    requires z == MatVec(h, x)
    ensures Innovation(z, h, x, md, sd) == Zeros(md)
    ensures UpdateMean(x, k, Innovation(z, h, x, md, sd), md, sd) == x
  {
    SubVSelf(z);
    MatVecZeros(k, md);
    AddVZeros(x);
  }

  /** The predicted covariance is symmetric when the prior covariance and `Q` are. */
  lemma PredictCovarSymmetric(f: Matrix, p: Matrix, q: Matrix, sd: nat)
    requires IsMatrix(f, sd, sd) && IsSymmetric(p, sd) && IsSymmetric(q, sd)
    ensures IsSymmetric(PredictCovar(f, p, q, sd), sd)
  {
    CongruenceSymmetric(f, p, sd, sd);
  }

  /** `S` is symmetric when the predicted covariance and `R` are. */
  lemma InnovationCovarSymmetric(h: Matrix, p: Matrix, r: Matrix, md: nat, sd: nat)
    requires IsMatrix(h, md, sd) && IsSymmetric(p, sd) && IsSymmetric(r, md)
    ensures IsSymmetric(InnovationCovar(h, p, r, md, sd), md)
  {
    CongruenceSymmetric(h, p, md, sd);
  }

  /** The updated covariance is symmetric when the predicted covariance and `S` are. */
  lemma UpdateCovarSymmetric(p: Matrix, k: Matrix, s: Matrix, md: nat, sd: nat)
    requires IsSymmetric(p, sd) && IsMatrix(k, sd, md) && IsSymmetric(s, md)
    ensures IsSymmetric(UpdateCovar(p, k, s, md, sd), sd)
  {
    CongruenceSymmetric(k, s, sd, md);
  }

  /** Given a left inverse of `S`, the gain solves the normal equation `K S = P H^T`. */
  lemma GainEquation(p: Matrix, h: Matrix, s: Matrix, sInv: Matrix, md: nat, sd: nat)
    requires IsMatrix(h, md, sd) && IsMatrix(p, sd, sd) && IsMatrix(s, md, md) && IsMatrix(sInv, md, md)
    requires MatMul(sInv, s, md) == Identity(md)
    ensures MatMul(Gain(p, h, sInv, md, sd), s, md) == MatMul(p, Transpose(h, sd), md)
  {
    var pht := MatMul(p, Transpose(h, sd), md);
    MatMulAssoc(pht, sInv, s, md, md);
    MatMulIdentityRight(pht, md);
  }
}
