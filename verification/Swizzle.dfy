/** The tile order of the kernels: tile ids walk groups of `g` tile rows, column by column inside a group,
    with a short last group. */
module Swizzle {
  import opened Numerics

  /** Rows in the group that `first` starts. */
  function GroupRows(g: nat, pm: nat, first: nat): nat
    requires first < pm
  {
    Min(pm - first, g)
  }

  lemma StartsInside(first: nat, pm: nat, pn: nat, id: nat)
    requires Times(first, pn) <= id < Times(pm, pn)
    ensures first < pm
  {
    if first >= pm { TimesLess(pm, first, pn); }
  }

  lemma RestFits(first: nat, rest: nat, g: nat, pm: nat, pn: nat)
    requires first < pm && rest < Times(g, pn) && Times(first, pn) + rest < Times(pm, pn)
    ensures rest < Times(GroupRows(g, pm, first), pn)
  {
    TimesLess(first, pm, pn);
  }

  /** First row of the group of tile `id`. */
  function FirstRow(g: nat, pn: nat, id: nat): nat
    requires g > 0 && pn > 0
  {
    TimesPositive(g, pn);
    Times(Quot(id, Times(g, pn)), g)
  }

  lemma GroupExists(g: nat, pm: nat, pn: nat, id: nat)
    requires g > 0 && id < Times(pm, pn)
    ensures pn > 0 && Times(g, pn) > 0 && FirstRow(g, pn, id) < pm
    ensures var rows := GroupRows(g, pm, FirstRow(g, pn, id));
      && 0 < rows <= g && FirstRow(g, pn, id) + rows <= pm && Rem(id, Times(g, pn)) < Times(rows, pn)
      && id == Times(FirstRow(g, pn, id), pn) + Rem(id, Times(g, pn))
  {
    FactorPositive(pm, pn, id);
    TimesPositive(g, pn);
    Recompose(id, Times(g, pn));
    TimesAssoc(Quot(id, Times(g, pn)), g, pn);
    StartsInside(FirstRow(g, pn, id), pm, pn, id);
    RestFits(FirstRow(g, pn, id), Rem(id, Times(g, pn)), g, pm, pn);
  }

  lemma TileInGrid(rest: nat, rows: nat, pn: nat)
    requires rest < Times(rows, pn) && rows > 0
    ensures Quot(rest, rows) < pn && Rem(rest, rows) < rows
  {
    TimesComm(rows, pn);
    DigitsFlat(rest, pn, rows);
  }

  /** Tile coordinates of a tile id. */
  function TileOf(g: nat, pm: nat, pn: nat, id: nat): (t: (nat, nat))
    requires g > 0 && id < Times(pm, pn)
    ensures t.0 < pm && t.1 < pn
  {
    GroupExists(g, pm, pn, id);
    var rows, rest := GroupRows(g, pm, FirstRow(g, pn, id)), Rem(id, Times(g, pn));
    TileInGrid(rest, rows, pn);
    (FirstRow(g, pn, id) + Rem(rest, rows), Quot(rest, rows))
  }

  lemma FirstBelow(i: nat, g: nat)
    requires g > 0
    ensures Times(Quot(i, g), g) <= i && i == Flat(Quot(i, g), g, Rem(i, g))
  {
    Recompose(i, g);
  }

  /** The tile id that reaches tile (i, j): group, column, row of the group. */
  function IdOf(g: nat, pm: nat, pn: nat, i: nat, j: nat): (id: nat)
    requires g > 0 && i < pm && j < pn
  {
    FirstBelow(i, g);
    Flat(Quot(i, g), Times(g, pn), Flat(j, GroupRows(g, pm, Times(Quot(i, g), g)), Rem(i, g)))
  }

  lemma RestInGroup(g: nat, pm: nat, pn: nat, i: nat, j: nat)
    requires g > 0 && i < pm && j < pn
    ensures Times(Quot(i, g), g) < pm
    ensures var rows := GroupRows(g, pm, Times(Quot(i, g), g));
      Rem(i, g) < rows && Flat(j, rows, Rem(i, g)) < Times(rows, pn) <= Times(g, pn)
  {
    FirstBelow(i, g);
    var rows := GroupRows(g, pm, Times(Quot(i, g), g));
    FlatInBounds(j, pn, rows, Rem(i, g));
    TimesComm(rows, pn);
    TimesLess(rows, g, pn);
  }

  lemma GroupEnds(first: nat, rows: nat, rest: nat, pm: nat, pn: nat)
    requires rest < Times(rows, pn) && first + rows <= pm
    ensures Times(first, pn) + rest < Times(pm, pn)
  {
    TimesSum(first, rows, pn);
    TimesLess(first + rows, pm, pn);
  }

  /** Every tile is reached: the id computed for a tile is a valid id and leads back to that tile. */
  lemma TileOfIdOf(g: nat, pm: nat, pn: nat, i: nat, j: nat)
    requires g > 0 && i < pm && j < pn
    ensures IdOf(g, pm, pn, i, j) < Times(pm, pn)
    ensures TileOf(g, pm, pn, IdOf(g, pm, pn, i, j)) == (i, j)
  {
    FirstBelow(i, g);
    RestInGroup(g, pm, pn, i, j);
    var group := Quot(i, g);
    var rows := GroupRows(g, pm, Times(group, g));
    var rest := Flat(j, rows, Rem(i, g));
    GroupEnds(Times(group, g), rows, rest, pm, pn);
    TimesAssoc(group, g, pn);
    FlatDigits(group, Times(g, pn), rest);
    FlatDigits(j, rows, Rem(i, g));
  }

  /** No tile is reached twice: the tile of an id determines the id. */
  lemma IdOfTileOf(g: nat, pm: nat, pn: nat, id: nat)
    requires g > 0 && id < Times(pm, pn)
    ensures var t := TileOf(g, pm, pn, id); IdOf(g, pm, pn, t.0, t.1) == id
  {
    GroupExists(g, pm, pn, id);
    var group, rest := Quot(id, Times(g, pn)), Rem(id, Times(g, pn));
    var rows := GroupRows(g, pm, Times(group, g));
    FirstBelow(id, Times(g, pn));
    FirstBelow(rest, rows);
    FlatDigits(group, g, Rem(rest, rows));
  }

  /** The swizzle is a bijection of [0, Times(pm, pn)) onto the tile grid for every group size, the short last
      group included; so a grid that visits every id visits every tile exactly once. */
  lemma SwizzleIsBijection(g: nat, pm: nat, pn: nat)
    requires g > 0
    ensures forall id {:trigger TileOf(g, pm, pn, id)} :: 0 <= id < Times(pm, pn) ==>
      var t := TileOf(g, pm, pn, id); IdOf(g, pm, pn, t.0, t.1) == id
    ensures forall i, j {:trigger IdOf(g, pm, pn, i, j)} :: 0 <= i < pm && 0 <= j < pn ==>
      IdOf(g, pm, pn, i, j) < Times(pm, pn) && TileOf(g, pm, pn, IdOf(g, pm, pn, i, j)) == (i, j)
  {
    forall id | 0 <= id < Times(pm, pn)
      ensures var t := TileOf(g, pm, pn, id); IdOf(g, pm, pn, t.0, t.1) == id
    {
      IdOfTileOf(g, pm, pn, id);
    }
    forall i, j | 0 <= i < pm && 0 <= j < pn
      ensures IdOf(g, pm, pn, i, j) < Times(pm, pn) && TileOf(g, pm, pn, IdOf(g, pm, pn, i, j)) == (i, j)
    {
      TileOfIdOf(g, pm, pn, i, j);
    }
  }

  /** The whole host-visible effect of the group size: two group sizes visit the same tiles, in some order. */
  lemma GroupSizeOnlyPermutesTiles(g: nat, g': nat, pm: nat, pn: nat, id: nat)
    requires g > 0 && g' > 0 && id < Times(pm, pn)
    ensures exists id' :: 0 <= id' < Times(pm, pn) && TileOf(g', pm, pn, id') == TileOf(g, pm, pn, id)
  {
    var t := TileOf(g, pm, pn, id);
    TileOfIdOf(g', pm, pn, t.0, t.1);
  }

  // ---- the walk, tile by tile ----

  /** The next row of the same group, or the first row of the next. */
  lemma NextRow(i: nat, g: nat)
    requires g > 0
    ensures if Rem(i + 1, g) != 0 then Quot(i + 1, g) == Quot(i, g) && Rem(i + 1, g) == Rem(i, g) + 1
            else Quot(i + 1, g) == Quot(i, g) + 1 && Rem(i, g) == g - 1
  {
    Recompose(i, g);
    if Rem(i, g) + 1 < g {
      FlatDigits(Quot(i, g), g, Rem(i, g) + 1);
    } else {
      FlatDigits(Quot(i, g) + 1, g, 0);
    }
  }

  /** The last row of its group. */
  lemma LastRow(i: nat, g: nat, pm: nat)
    requires g > 0 && i < pm && (Rem(i + 1, g) == 0 || i + 1 == pm)
    ensures Times(Quot(i, g), g) < pm && GroupRows(g, pm, Times(Quot(i, g), g)) == Rem(i, g) + 1
  {
    NextRow(i, g);
    FirstBelow(i, g);
  }

  lemma NextInColumn(g: nat, pm: nat, pn: nat, i: nat, j: nat)
    requires g > 0 && i + 1 < pm && j < pn && Rem(i + 1, g) != 0
    ensures IdOf(g, pm, pn, i + 1, j) == IdOf(g, pm, pn, i, j) + 1
  {
    NextRow(i, g);
  }

  lemma NextColumn(g: nat, pm: nat, pn: nat, i: nat, j: nat)
    requires g > 0 && i < pm && j + 1 < pn && (Rem(i + 1, g) == 0 || i + 1 == pm)
    ensures Rem(i, g) <= i && IdOf(g, pm, pn, i - Rem(i, g), j + 1) == IdOf(g, pm, pn, i, j) + 1
  {
    LastRow(i, g, pm);
    FirstBelow(i, g);
    FlatDigits(Quot(i, g), g, 0);
  }

  lemma NextGroup(g: nat, pm: nat, pn: nat, i: nat)
    requires g > 0 && i + 1 < pm && pn > 0 && Rem(i + 1, g) == 0
    ensures IdOf(g, pm, pn, i + 1, 0) == IdOf(g, pm, pn, i, pn - 1) + 1
  {
    NextRow(i, g);
    LastRow(i, g, pm);
    TimesComm(pn, g);
  }

  lemma {:induction false} TimesParts(pm: nat, first: nat, rows: nat, pn: nat)
    requires pm == first + rows
    ensures Times(pm, pn) == Times(first, pn) + Times(rows, pn)
    decreases rows
  {
    if rows > 0 { TimesParts(pm - 1, first, rows - 1, pn); }
  }

  lemma LastId(q: nat, g: nat, pn: nat, rows: nat, pm: nat, last: nat)
    requires Times(q, g) + rows == pm && rows > 0 && pn == last + 1
    ensures Flat(q, Times(g, pn), Flat(last, rows, rows - 1)) + 1 == Times(pm, pn)
  {
    TimesAssoc(q, g, pn);
    TimesParts(pm, Times(q, g), rows, pn);
    RowsTimes(rows, last, pn);
  }

  lemma RowsTimes(rows: nat, last: nat, pn: nat)
    requires pn == last + 1
    ensures Times(rows, pn) == Times(last, rows) + rows
  {
    TimesSucc(last, rows);
    TimesComm(rows, pn);
  }

  lemma IdIs(g: nat, pm: nat, pn: nat, i: nat, j: nat, q: nat, rows: nat, r: nat)
    requires g > 0 && i < pm && j < pn && q == Quot(i, g) && r == Rem(i, g)
    requires Times(q, g) < pm && rows == GroupRows(g, pm, Times(q, g))
    ensures IdOf(g, pm, pn, i, j) == Flat(q, Times(g, pn), Flat(j, rows, r)) && i == Times(q, g) + r
  {
    FirstBelow(i, g);
  }

  lemma LastTile(g: nat, pm: nat, pn: nat, i: nat, j: nat)
    requires g > 0 && pm == i + 1 && pn == j + 1
    ensures IdOf(g, pm, pn, i, j) + 1 == Times(pm, pn)
  {
    var q, r := Quot(i, g), Rem(i, g);
    LastRow(i, g, pm);
    IdIs(g, pm, pn, i, j, q, r + 1, r);
    LastId(q, g, pn, r + 1, pm, j);
  }

  lemma AfterInColumn(g: nat, pm: nat, pn: nat, i: nat, j: nat, id: nat)
    requires g > 0 && i + 1 < pm && j < pn && Rem(i + 1, g) != 0
    requires id + 1 < Times(pm, pn) && IdOf(g, pm, pn, i, j) == id
    ensures TileOf(g, pm, pn, id + 1) == (i + 1, j)
  {
    NextInColumn(g, pm, pn, i, j);
    TileOfIdOf(g, pm, pn, i + 1, j);
  }

  lemma AfterColumn(g: nat, pm: nat, pn: nat, i: nat, j: nat, id: nat)
    requires g > 0 && i < pm && j + 1 < pn && (Rem(i + 1, g) == 0 || i + 1 == pm)
    requires id + 1 < Times(pm, pn) && IdOf(g, pm, pn, i, j) == id
    ensures Rem(i, g) <= i && TileOf(g, pm, pn, id + 1) == (i - Rem(i, g), j + 1)
  {
    NextColumn(g, pm, pn, i, j);
    var top := i - Rem(i, g);
    TileFollows(g, pm, pn, top, j + 1, id + 1);
  }

  lemma TileFollows(g: nat, pm: nat, pn: nat, i: nat, j: nat, id: nat)
    requires g > 0 && i < pm && j < pn && id == IdOf(g, pm, pn, i, j)
    ensures id < Times(pm, pn) && TileOf(g, pm, pn, id) == (i, j)
  {
    TileOfIdOf(g, pm, pn, i, j);
  }

  lemma AfterGroup(g: nat, pm: nat, pn: nat, i: nat, j: nat, id: nat)
    requires g > 0 && i < pm && pn == j + 1 && (Rem(i + 1, g) == 0 || i + 1 == pm)
    requires id + 1 < Times(pm, pn) && IdOf(g, pm, pn, i, j) == id
    ensures i + 1 < pm && TileOf(g, pm, pn, id + 1) == (i + 1, 0)
  {
    if i + 1 == pm { LastTile(g, pm, pn, i, j); }
    NextGroup(g, pm, pn, i);
    TileOfIdOf(g, pm, pn, i + 1, 0);
  }

  /** Consecutive ids go down a column of at most `g` rows, then on to the next column of the group, and from its
      last column to the next group. */
  lemma NextTile(g: nat, pm: nat, pn: nat, id: nat)
    requires g > 0 && id + 1 < Times(pm, pn)
    ensures var (i, j) := TileOf(g, pm, pn, id);
      Rem(i, g) <= i && TileOf(g, pm, pn, id + 1) ==
        if i + 1 < pm && Rem(i + 1, g) != 0 then (i + 1, j)
        else if j + 1 < pn then (i - Rem(i, g), j + 1)
        else (i + 1, 0)
  {
    var (i, j) := TileOf(g, pm, pn, id);
    IdOfTileOf(g, pm, pn, id);
    FirstBelow(i, g);
    if i + 1 < pm && Rem(i + 1, g) != 0 {
      AfterInColumn(g, pm, pn, i, j, id);
    } else if j + 1 < pn {
      AfterColumn(g, pm, pn, i, j, id);
    } else {
      AfterGroup(g, pm, pn, i, j, id);
    }
  }

  lemma FirstTile(g: nat, pm: nat, pn: nat)
    requires g > 0 && pm > 0 && pn > 0
    ensures 0 < Times(pm, pn) && TileOf(g, pm, pn, 0) == (0, 0)
  {
    TimesPositive(pm, pn);
    TileOfIdOf(g, pm, pn, 0, 0);
  }

  /** With groups of one row the order is row-major: the tensor-core kernels' order. */
  lemma RowMajorOrder(pm: nat, pn: nat, id: nat)
    requires id < Times(pm, pn)
    ensures pn > 0 && TileOf(1, pm, pn, id) == (Quot(id, pn), Rem(id, pn))
  {
    GroupExists(1, pm, pn, id);
    assert Times(1, pn) == pn;
    TimesIs(Quot(id, pn), 1);
    TimesIs(Rem(id, pn), 1);
    FlatDigits(Rem(id, pn), 1, 0);
  }
}
