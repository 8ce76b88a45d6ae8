/** A round looked at as G on its columns and then on its diagonals, four words at a time. */
module Quads {
  import opened Words
  import opened Rfc7693

  function Pick(v: Work, a: nat, b: nat, c: nat, d: nat): Quad
    requires a < 16 && b < 16 && c < 16 && d < 16
  {
    Quad(v[a], v[b], v[c], v[d])
  }

  /** Going from v to w mixed the four words at a, b, c, d with x and y. */
  predicate Mixed(v: Work, w: Work, a: nat, b: nat, c: nat, d: nat, x: Word, y: Word)
    requires a < 16 && b < 16 && c < 16 && d < 16
  {
    hide G;
    Pick(w, a, b, c, d) == G(Pick(v, a, b, c, d), x, y)
  }

  lemma MixMixes(v: Work, a: nat, b: nat, c: nat, d: nat, x: Word, y: Word)
    requires a < 4 <= b < 8 <= c < 12 <= d < 16
    ensures Mixed(v, Mix(v, a, b, c, d, x, y), a, b, c, d, x, y)
    ensures forall i :: 0 <= i < 16 && i != a && i != b && i != c && i != d ==> Mix(v, a, b, c, d, x, y)[i] == v[i]
  {
    hide G;
  }

  predicate ColumnsMixed(v: Work, w: Work, m: Work, s: Schedule) {
    hide Mixed;
    && Mixed(v, w, 0, 4, 8, 12, m[s[0]], m[s[1]]) && Mixed(v, w, 1, 5, 9, 13, m[s[2]], m[s[3]])
    && Mixed(v, w, 2, 6, 10, 14, m[s[4]], m[s[5]]) && Mixed(v, w, 3, 7, 11, 15, m[s[6]], m[s[7]])
  }

  predicate DiagonalsMixed(v: Work, w: Work, m: Work, s: Schedule) {
    hide Mixed;
    && Mixed(v, w, 0, 5, 10, 15, m[s[8]], m[s[9]]) && Mixed(v, w, 1, 6, 11, 12, m[s[10]], m[s[11]])
    && Mixed(v, w, 2, 7, 8, 13, m[s[12]], m[s[13]]) && Mixed(v, w, 3, 4, 9, 14, m[s[14]], m[s[15]])
  }

  lemma ColumnsMix(v: Work, m: Work, s: Schedule)
    ensures ColumnsMixed(v, Columns(v, m, s), m, s)
  {
    hide G, Mix;
    var v0 := Mix(v, 0, 4, 8, 12, m[s[0]], m[s[1]]);
    var v1 := Mix(v0, 1, 5, 9, 13, m[s[2]], m[s[3]]);
    var v2 := Mix(v1, 2, 6, 10, 14, m[s[4]], m[s[5]]);
    MixMixes(v, 0, 4, 8, 12, m[s[0]], m[s[1]]);
    MixMixes(v0, 1, 5, 9, 13, m[s[2]], m[s[3]]);
    MixMixes(v1, 2, 6, 10, 14, m[s[4]], m[s[5]]);
    MixMixes(v2, 3, 7, 11, 15, m[s[6]], m[s[7]]);
  }

  lemma DiagonalsMix(v: Work, m: Work, s: Schedule)
    ensures DiagonalsMixed(v, Diagonals(v, m, s), m, s)
  {
    hide G, Mix;
    var v0 := Mix(v, 0, 5, 10, 15, m[s[8]], m[s[9]]);
    var v1 := Mix(v0, 1, 6, 11, 12, m[s[10]], m[s[11]]);
    var v2 := Mix(v1, 2, 7, 8, 13, m[s[12]], m[s[13]]);
    MixMixes(v, 0, 5, 10, 15, m[s[8]], m[s[9]]);
    MixMixes(v0, 1, 6, 11, 12, m[s[10]], m[s[11]]);
    MixMixes(v1, 2, 7, 8, 13, m[s[12]], m[s[13]]);
    MixMixes(v2, 3, 4, 9, 14, m[s[14]], m[s[15]]);
  }

  /** A vector whose four columns were mixed is the column step's result. */
  lemma ColumnsByQuads(v: Work, w: Work, m: Work, s: Schedule)
    requires ColumnsMixed(v, w, m, s)
    ensures w == Columns(v, m, s)
  {
    hide G, Columns;
    ColumnsMix(v, m, s);
  }

  lemma DiagonalsByQuads(v: Work, w: Work, m: Work, s: Schedule)
    requires DiagonalsMixed(v, w, m, s)
    ensures w == Diagonals(v, m, s)
  {
    hide G, Diagonals;
    DiagonalsMix(v, m, s);
  }

  /** The vector with these four columns, and the one with these four diagonals. */
  function OfColumns(p: Quad, q: Quad, r: Quad, t: Quad): Work {
    [p.a, q.a, r.a, t.a, p.b, q.b, r.b, t.b, p.c, q.c, r.c, t.c, p.d, q.d, r.d, t.d]
  }

  function OfDiagonals(p: Quad, q: Quad, r: Quad, t: Quad): Work {
    [p.a, q.a, r.a, t.a, t.b, p.b, q.b, r.b, r.c, t.c, p.c, q.c, q.d, r.d, t.d, p.d]
  }

  lemma ColumnsAre(v: Work, m: Work, s: Schedule)
    ensures Columns(v, m, s) ==
            OfColumns(G(Pick(v, 0, 4, 8, 12), m[s[0]], m[s[1]]), G(Pick(v, 1, 5, 9, 13), m[s[2]], m[s[3]]),
                      G(Pick(v, 2, 6, 10, 14), m[s[4]], m[s[5]]), G(Pick(v, 3, 7, 11, 15), m[s[6]], m[s[7]]))
  {
    hide G, Columns;
    ColumnsMix(v, m, s);
  }

  lemma DiagonalsAre(v: Work, m: Work, s: Schedule)
    ensures Diagonals(v, m, s) ==
            OfDiagonals(G(Pick(v, 0, 5, 10, 15), m[s[8]], m[s[9]]), G(Pick(v, 1, 6, 11, 12), m[s[10]], m[s[11]]),
                        G(Pick(v, 2, 7, 8, 13), m[s[12]], m[s[13]]), G(Pick(v, 3, 4, 9, 14), m[s[14]], m[s[15]]))
  {
    hide G, Diagonals;
    DiagonalsMix(v, m, s);
  }
}
