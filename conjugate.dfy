/**
 * The distribution families the conjugate samplers test with getDist
 * (only those the modelled samplers name; all others are OtherDist).
 */
module ConjugateDists {
  datatype ConjugateDist = Norm | MNorm | Multi | Bin | OtherDist
}
