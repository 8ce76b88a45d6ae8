/** For a fixed message the twelve rounds permute the working vectors: an explicit inverse. */
module Permutation {
  import opened Words
  import opened Rfc7693
  import opened Adder

  function Sub(x: Word, y: Word): Word { OfValue((Value(x) - Value(y)) % TWO64) }

  function Rotl24(w: Word): Word { (w << 24) | (w >> 40) }
  function Rotl16(w: Word): Word { (w << 16) | (w >> 48) }
  function Rotl63(w: Word): Word { (w << 63) | (w >> 1) }

  lemma RotationsUndone(w: Word)
    ensures Rotr32(Rotr32(w)) == w
    ensures Rotl24(Rotr24(w)) == w && Rotr24(Rotl24(w)) == w
    ensures Rotl16(Rotr16(w)) == w && Rotr16(Rotl16(w)) == w
    ensures Rotl63(Rotr63(w)) == w && Rotr63(Rotl63(w)) == w
  {
  }

  lemma ModCancels(a: U64, b: U64)
    ensures ((a + b) % TWO64 - b) % TWO64 == a && ((a - b) % TWO64 + b) % TWO64 == a
  {
    assert (a + b) % TWO64 == if a + b < TWO64 then a + b else a + b - TWO64;
    assert (a - b) % TWO64 == if a >= b then a - b else a - b + TWO64;
  }

  lemma SumsUndone(x: Word, y: Word)
    ensures Sub(Add(x, y), y) == x && Add(Sub(x, y), y) == x
    ensures Add(x, y) == Add(y, x)
  {
    hide Value, OfValue, Add;
    AddIsAddition(x, y); AddIsAddition(y, x); AddIsAddition(Sub(x, y), y);
    ValueOfOfValue((Value(x) - Value(y)) % TWO64);
    ModCancels(Value(x), Value(y));
    OfValueOfValue(x); OfValueOfValue(Add(x, y)); OfValueOfValue(Add(y, x)); OfValueOfValue(Add(Sub(x, y), y));
  }

  function UnG1(q: Quad, x: Word): Quad {
    var b := Xor(Rotl24(q.b), q.c);
    var c := Sub(q.c, q.d);
    var d := Xor(Rotr32(q.d), q.a);
    Quad(Sub(Sub(q.a, x), b), b, c, d)
  }

  function UnG2(q: Quad, y: Word): Quad {
    var b := Xor(Rotl63(q.b), q.c);
    var c := Sub(q.c, q.d);
    var d := Xor(Rotl16(q.d), q.a);
    Quad(Sub(Sub(q.a, y), b), b, c, d)
  }

  /** The inverse of G for the same two message words. */
  function UnG(q: Quad, x: Word, y: Word): Quad {
    UnG1(UnG2(q, y), x)
  }

  lemma UnG1Undoes(q: Quad, x: Word)
    ensures UnG1(G1(q, x), x) == q && G1(UnG1(q, x), x) == q
  {
    hide Add, Sub, Xor, Rotr32, Rotr24, Rotl24;
    var r := G1(q, x);
    SumsUndone(Add(q.a, q.b), x); SumsUndone(q.a, q.b); SumsUndone(q.c, r.d);
    RotationsUndone(Xor(q.d, r.a)); RotationsUndone(Xor(q.b, r.c));
    XorCancels(q.d, r.a); XorCancels(q.b, r.c);
    var u := UnG1(q, x);
    SumsUndone(q.a, x); SumsUndone(Sub(q.a, x), u.b); SumsUndone(q.c, q.d);
    RotationsUndone(q.d); RotationsUndone(q.b);
    XorCancels(Rotr32(q.d), q.a); XorCancels(Rotl24(q.b), q.c);
  }

  lemma UnG2Undoes(q: Quad, y: Word)
    ensures UnG2(G2(q, y), y) == q && G2(UnG2(q, y), y) == q
  {
    hide Add, Sub, Xor, Rotr16, Rotr63, Rotl16, Rotl63;
    var r := G2(q, y);
    SumsUndone(Add(q.a, q.b), y); SumsUndone(q.a, q.b); SumsUndone(q.c, r.d);
    RotationsUndone(Xor(q.d, r.a)); RotationsUndone(Xor(q.b, r.c));
    XorCancels(q.d, r.a); XorCancels(q.b, r.c);
    var u := UnG2(q, y);
    SumsUndone(q.a, y); SumsUndone(Sub(q.a, y), u.b); SumsUndone(q.c, q.d);
    RotationsUndone(q.d); RotationsUndone(q.b);
    XorCancels(Rotl16(q.d), q.a); XorCancels(Rotl63(q.b), q.c);
  }

  /** G is a bijection of its four words. */
  lemma UnGUndoes(q: Quad, x: Word, y: Word)
    ensures UnG(G(q, x, y), x, y) == q && G(UnG(q, x, y), x, y) == q
  {
    hide G1, G2, UnG1, UnG2;
    UnG1Undoes(q, x); UnG2Undoes(G1(q, x), y);
    UnG2Undoes(q, y); UnG1Undoes(UnG2(q, y), x);
  }

  function UnMix(v: Work, a: nat, b: nat, c: nat, d: nat, x: Word, y: Word): Work
    requires a < 4 <= b < 8 <= c < 12 <= d < 16
  {
    hide UnG;
    var q := UnG(Quad(v[a], v[b], v[c], v[d]), x, y);
    v[a := q.a][b := q.b][c := q.c][d := q.d]
  }

  lemma UnMixUndoes(v: Work, a: nat, b: nat, c: nat, d: nat, x: Word, y: Word)
    requires a < 4 <= b < 8 <= c < 12 <= d < 16
    ensures UnMix(Mix(v, a, b, c, d, x, y), a, b, c, d, x, y) == v
    ensures Mix(UnMix(v, a, b, c, d, x, y), a, b, c, d, x, y) == v
  {
    hide G, UnG;
    UnGUndoes(Quad(v[a], v[b], v[c], v[d]), x, y);
  }

  function UnColumns(v: Work, m: Work, s: Schedule): Work {
    hide UnMix;
    var v0 := UnMix(v, 3, 7, 11, 15, m[s[6]], m[s[7]]);
    var v1 := UnMix(v0, 2, 6, 10, 14, m[s[4]], m[s[5]]);
    var v2 := UnMix(v1, 1, 5, 9, 13, m[s[2]], m[s[3]]);
    UnMix(v2, 0, 4, 8, 12, m[s[0]], m[s[1]])
  }

  function UnDiagonals(v: Work, m: Work, s: Schedule): Work {
    hide UnMix;
    var v0 := UnMix(v, 3, 4, 9, 14, m[s[14]], m[s[15]]);
    var v1 := UnMix(v0, 2, 7, 8, 13, m[s[12]], m[s[13]]);
    var v2 := UnMix(v1, 1, 6, 11, 12, m[s[10]], m[s[11]]);
    UnMix(v2, 0, 5, 10, 15, m[s[8]], m[s[9]])
  }

  lemma UnColumnsUndoes(v: Work, m: Work, s: Schedule)
    ensures UnColumns(Columns(v, m, s), m, s) == v && Columns(UnColumns(v, m, s), m, s) == v
  {
    hide Mix, UnMix;
    var v0 := Mix(v, 0, 4, 8, 12, m[s[0]], m[s[1]]);
    var v1 := Mix(v0, 1, 5, 9, 13, m[s[2]], m[s[3]]);
    var v2 := Mix(v1, 2, 6, 10, 14, m[s[4]], m[s[5]]);
    UnMixUndoes(v, 0, 4, 8, 12, m[s[0]], m[s[1]]);
    UnMixUndoes(v0, 1, 5, 9, 13, m[s[2]], m[s[3]]);
    UnMixUndoes(v1, 2, 6, 10, 14, m[s[4]], m[s[5]]);
    UnMixUndoes(v2, 3, 7, 11, 15, m[s[6]], m[s[7]]);
    var w0 := UnMix(v, 3, 7, 11, 15, m[s[6]], m[s[7]]);
    var w1 := UnMix(w0, 2, 6, 10, 14, m[s[4]], m[s[5]]);
    var w2 := UnMix(w1, 1, 5, 9, 13, m[s[2]], m[s[3]]);
    UnMixUndoes(v, 3, 7, 11, 15, m[s[6]], m[s[7]]);
    UnMixUndoes(w0, 2, 6, 10, 14, m[s[4]], m[s[5]]);
    UnMixUndoes(w1, 1, 5, 9, 13, m[s[2]], m[s[3]]);
    UnMixUndoes(w2, 0, 4, 8, 12, m[s[0]], m[s[1]]);
  }

  lemma UnDiagonalsUndoes(v: Work, m: Work, s: Schedule)
    ensures UnDiagonals(Diagonals(v, m, s), m, s) == v && Diagonals(UnDiagonals(v, m, s), m, s) == v
  {
    hide Mix, UnMix;
    var v0 := Mix(v, 0, 5, 10, 15, m[s[8]], m[s[9]]);
    var v1 := Mix(v0, 1, 6, 11, 12, m[s[10]], m[s[11]]);
    var v2 := Mix(v1, 2, 7, 8, 13, m[s[12]], m[s[13]]);
    UnMixUndoes(v, 0, 5, 10, 15, m[s[8]], m[s[9]]);
    UnMixUndoes(v0, 1, 6, 11, 12, m[s[10]], m[s[11]]);
    UnMixUndoes(v1, 2, 7, 8, 13, m[s[12]], m[s[13]]);
    UnMixUndoes(v2, 3, 4, 9, 14, m[s[14]], m[s[15]]);
    var w0 := UnMix(v, 3, 4, 9, 14, m[s[14]], m[s[15]]);
    var w1 := UnMix(w0, 2, 7, 8, 13, m[s[12]], m[s[13]]);
    var w2 := UnMix(w1, 1, 6, 11, 12, m[s[10]], m[s[11]]);
    UnMixUndoes(v, 3, 4, 9, 14, m[s[14]], m[s[15]]);
    UnMixUndoes(w0, 2, 7, 8, 13, m[s[12]], m[s[13]]);
    UnMixUndoes(w1, 1, 6, 11, 12, m[s[10]], m[s[11]]);
    UnMixUndoes(w2, 0, 5, 10, 15, m[s[8]], m[s[9]]);
  }

  function UnRound(v: Work, m: Work, s: Schedule): Work {
    UnColumns(UnDiagonals(v, m, s), m, s)
  }

  lemma UnRoundUndoes(v: Work, m: Work, s: Schedule)
    ensures UnRound(Round(v, m, s), m, s) == v && Round(UnRound(v, m, s), m, s) == v
  {
    hide Columns, Diagonals, UnColumns, UnDiagonals;
    UnColumnsUndoes(v, m, s); UnDiagonalsUndoes(Columns(v, m, s), m, s);
    UnDiagonalsUndoes(v, m, s); UnColumnsUndoes(UnDiagonals(v, m, s), m, s);
  }

  /** The first `r` rounds undone, last round first. */
  function UnRounds(v: Work, m: Work, r: nat): Work
    decreases r
  {
    hide UnRound;
    if r == 0 then v else UnRounds(UnRound(v, m, Sigma(r - 1)), m, r - 1)
  }

  /** Any number of rounds is a bijection of the working vectors. */
  lemma {:induction false} UnRoundsUndoes(v: Work, m: Work, r: nat)
    ensures UnRounds(Rounds(v, m, r), m, r) == v && Rounds(UnRounds(v, m, r), m, r) == v
    decreases r
  {
    hide Round, UnRound, Sigma;
    if r == 0 {
    } else {
      UnRoundsUndoes(v, m, r - 1);
      UnRoundUndoes(Rounds(v, m, r - 1), m, Sigma(r - 1));
      UnRoundsUndoes(UnRound(v, m, Sigma(r - 1)), m, r - 1);
      UnRoundUndoes(v, m, Sigma(r - 1));
    }
  }
}
