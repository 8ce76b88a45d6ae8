/** The tables of src/const.c against the ones RFC 7693 prints. */
module Tables {
  import opened Rfc7693

  /** `ub_sigma`: twelve rows, so that a round indexes it without a remainder. */
  const UB_SIGMA: seq<seq<nat>> := [
    [0, 1, 2, 3, 4, 5, 6, 7, 8, 9, 10, 11, 12, 13, 14, 15],
    [14, 10, 4, 8, 9, 15, 13, 6, 1, 12, 0, 2, 11, 7, 5, 3],
    [11, 8, 12, 0, 5, 2, 15, 13, 10, 14, 3, 6, 7, 1, 9, 4],
    [7, 9, 3, 1, 13, 12, 11, 14, 2, 6, 5, 10, 4, 0, 15, 8],
    [9, 0, 5, 7, 2, 4, 10, 15, 14, 1, 11, 12, 6, 8, 3, 13],
    [2, 12, 6, 10, 0, 11, 8, 3, 4, 13, 7, 5, 15, 14, 1, 9],
    [12, 5, 1, 15, 14, 13, 4, 10, 0, 7, 6, 3, 9, 2, 8, 11],
    [13, 11, 7, 14, 12, 1, 3, 9, 5, 0, 15, 4, 8, 6, 2, 10],
    [6, 15, 14, 9, 11, 3, 0, 8, 12, 2, 13, 7, 1, 4, 10, 5],
    [10, 2, 8, 4, 7, 6, 1, 5, 15, 11, 9, 14, 3, 12, 13, 0],
    [0, 1, 2, 3, 4, 5, 6, 7, 8, 9, 10, 11, 12, 13, 14, 15],
    [14, 10, 4, 8, 9, 15, 13, 6, 1, 12, 0, 2, 11, 7, 5, 3]]

  /** Row r is the schedule of round r. */
  lemma SigmaRows(r: nat)
    requires r < 12
    ensures UB_SIGMA[r] == Sigma(r)
  {
    match r
    case 0 => assert UB_SIGMA[0] == SIGMA0;
    case 1 => assert UB_SIGMA[1] == SIGMA1;
    case 2 => assert UB_SIGMA[2] == SIGMA2;
    case 3 => assert UB_SIGMA[3] == SIGMA3;
    case 4 => assert UB_SIGMA[4] == SIGMA4;
    case 5 => assert UB_SIGMA[5] == SIGMA5;
    case 6 => assert UB_SIGMA[6] == SIGMA6;
    case 7 => assert UB_SIGMA[7] == SIGMA7;
    case 8 => assert UB_SIGMA[8] == SIGMA8;
    case 9 => assert UB_SIGMA[9] == SIGMA9;
    case 10 => assert UB_SIGMA[10] == SIGMA0;
    case _ => assert UB_SIGMA[11] == SIGMA1;
  }
}
