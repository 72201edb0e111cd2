/**
 * The owner's rate-card page: the rate card is stored as database rows, two per
 * cell (priority 1 holds the base tier, priority 2 the price after the limit),
 * keyed by (owner, print type, side type, priority). Loading folds the rows onto
 * a fresh copy of the default card, system rows (no owner) first; saving emits
 * the eight rows of the current card; editing changes one field of one cell.
 */
module PricingPage {
  import opened Wrappers
  import opened JsString
  import opened Pricing

  /** One `pricing_config` row as the query returns it. */
  datatype Row = Row(
    ownerId: Option<string>,
    printType: string,
    sideType: string,
    tierLimit: Option<int>,
    rate: real,
    priority: int)

  /** The page's own default card, written out separately from the calculator's. */
  const DefaultTiers: PricingConfig := map[
    Cell(BW, Single) := PricingTier(2.0, 10, 1.0),
    Cell(BW, Double) := PricingTier(2.0, 10, 1.5),
    Cell(Color, Single) := PricingTier(10.0, 0, 10.0),
    Cell(Color, Double) := PricingTier(20.0, 0, 20.0)
  ]

  /** The page and the calculator start from the same rate card, cell by cell. */
  lemma DefaultTiersAgree()
    ensures Complete(DefaultTiers)
    ensures DefaultTiers == DefaultPricing
  {
  }

  /** The keys of the page's state object. */
  function TypeName(printType: PrintType): string {
    match printType
    case BW => "bw"
    case Color => "color"
  }

  function SideName(side: SideType): string {
    match side
    case Single => "single"
    case Double => "double"
  }

  /** The cell a row names, once both names are lower-cased; `None` when there is no such key. */
  function CellOf(printType: string, sideType: string): (c: Option<Cell>)
    ensures c.Some? <==>
      (ToLower(printType) == "bw" || ToLower(printType) == "color")
      && (ToLower(sideType) == "single" || ToLower(sideType) == "double")
    ensures c.Some? ==>
      TypeName(c.value.printType) == ToLower(printType) && SideName(c.value.side) == ToLower(sideType)
  {
    var t, s := ToLower(printType), ToLower(sideType);
    if (t == "bw" || t == "color") && (s == "single" || s == "double") then
      Some(Cell(if t == "bw" then BW else Color, if s == "single" then Single else Double))
    else None
  }

  /** Whether `row` is the one that sets field group `priority` of `cell`. */
  predicate Writes(row: Row, cell: Cell, priority: int) {
    row.priority == priority && CellOf(row.printType, row.sideType) == Some(cell)
  }

  /**
   * The body of the `sortedData.forEach` callback. A priority-1 row sets the base
   * price and the limit (a null limit gives 0), a priority-2 row sets the extra
   * price, any other priority is ignored. A priority-1 or -2 row naming an unknown
   * type or side dereferences an undefined entry and throws: `None`.
   */
  function ApplyRow(tiers: PricingConfig, row: Row): (r: Option<PricingConfig>)
    requires Complete(tiers)
    ensures (row.priority != 1 && row.priority != 2) ==> r == Some(tiers)
    ensures (row.priority == 1 || row.priority == 2) ==>
      (r.Some? <==> CellOf(row.printType, row.sideType).Some?)
    ensures r.Some? ==> r.value.Keys == tiers.Keys
    ensures r.Some? && (row.priority == 1 || row.priority == 2) ==>
      var c := CellOf(row.printType, row.sideType).value;
      && (forall other :: other in tiers && other != c ==> r.value[other] == tiers[other])
      && (row.priority == 1 ==>
            r.value[c] == PricingTier(row.rate, row.tierLimit.GetOr(0), tiers[c].extraPrice))
      && (row.priority == 2 ==>
            r.value[c] == PricingTier(tiers[c].basePrice, tiers[c].baseLimit, row.rate))
  {
    if row.priority != 1 && row.priority != 2 then Some(tiers)
    else
      match CellOf(row.printType, row.sideType)
      case None => None
      case Some(c) =>
        CompleteHasEveryCell(tiers, c);
        var tier := tiers[c];
        if row.priority == 1 then
          Some(tiers[c := tier.(basePrice := row.rate, baseLimit := row.tierLimit.GetOr(0))])
        else
          Some(tiers[c := tier.(extraPrice := row.rate)])
  }

  /** The rows applied in order; `None` as soon as one throws. */
  function ApplyRows(tiers: PricingConfig, rows: seq<Row>): (r: Option<PricingConfig>)
    requires Complete(tiers)
    ensures r.Some? ==> Complete(r.value) && r.value.Keys == tiers.Keys
    decreases |rows|
  {
    if rows == [] then Some(tiers)
    else
      match ApplyRows(tiers, rows[..|rows| - 1])
      case None => None
      case Some(before) => ApplyRow(before, rows[|rows| - 1])
  }

  /** The rows without an owner: the system defaults, in their original order. */
  function SystemRows(rows: seq<Row>): (r: seq<Row>)
    ensures |r| <= |rows|
    ensures forall i :: 0 <= i < |r| ==> r[i].ownerId.None?
    decreases |rows|
  {
    if rows == [] then []
    else SystemRows(rows[..|rows| - 1]) + (if rows[|rows| - 1].ownerId.None? then [rows[|rows| - 1]] else [])
  }

  /** The rows with an owner, in their original order. */
  function OwnerRows(rows: seq<Row>): (r: seq<Row>)
    ensures |r| <= |rows|
    ensures forall i :: 0 <= i < |r| ==> r[i].ownerId.Some?
    decreases |rows|
  {
    if rows == [] then []
    else OwnerRows(rows[..|rows| - 1]) + (if rows[|rows| - 1].ownerId.Some? then [rows[|rows| - 1]] else [])
  }

  /**
   * `data.sort` with the comparator that puts a row without an owner before a row
   * with one and calls rows with the same owner equal. The sort is stable, so this
   * is the stable partition: system rows first, then the owner's, each in query order.
   */
  function SortRows(rows: seq<Row>): (sorted: seq<Row>)
    ensures forall i, j :: 0 <= i < j < |sorted| ==> !(sorted[i].ownerId.Some? && sorted[j].ownerId.None?)
  {
    SystemRows(rows) + OwnerRows(rows)
  }

  /** The sort only reorders: every row is kept, as often as it occurs. */
  lemma {:induction false} SortIsPermutation(rows: seq<Row>)
    ensures multiset(SortRows(rows)) == multiset(rows)
    decreases |rows|
  {
    if rows != [] {
      var front, last := rows[..|rows| - 1], rows[|rows| - 1];
      SortIsPermutation(front);
      assert rows == front + [last];
    }
  }

  /**
   * `loadPricing`'s effect on the page's tiers: with no data, or no rows, the tiers
   * stay as they were; otherwise the sorted rows are folded onto a fresh copy of
   * the defaults, and a row that throws leaves the tiers as they were.
   */
  function LoadedTiers(tiers: PricingConfig, data: Option<seq<Row>>): (r: PricingConfig)
    ensures (data.None? || |data.value| == 0) ==> r == tiers
    ensures Complete(tiers) ==> Complete(r)
  {
    if data.None? || |data.value| == 0 then tiers
    else
      match ApplyRows(DefaultTiers, SortRows(data.value))
      case Some(loaded) => loaded
      case None => tiers
  }

  /** The page starts from the default card, and a load that finds no rows leaves it there. */
  lemma NoRowsKeepsDefaults(data: Option<seq<Row>>)
    requires data.None? || data.value == []
    ensures LoadedTiers(DefaultTiers, data) == DefaultTiers == DefaultPricing
  {
    DefaultTiersAgree();
  }

  /** `loadPricing` as the source writes it: a copy of the defaults updated row by row. */
  method LoadPricing(tiers: PricingConfig, data: Option<seq<Row>>) returns (loaded: PricingConfig)
    ensures loaded == LoadedTiers(tiers, data)
  {
    loaded := tiers;
    if data.None? || |data.value| == 0 {
      return;
    }
    var newTiers := DefaultTiers;
    var sortedData := SortRows(data.value);
    for k := 0 to |sortedData|
      invariant Complete(newTiers)
      invariant ApplyRows(DefaultTiers, sortedData[..k]) == Some(newTiers)
    {
      var row := sortedData[k];
      ApplyRowsSnoc(DefaultTiers, sortedData, k, newTiers);
      if row.priority == 1 || row.priority == 2 {
        var cell := CellOf(row.printType, row.sideType);
        if cell.None? {
          // `newTiers[type]` is undefined: the assignment throws and the catch leaves the tiers alone.
          ApplyRowsStaysFailed(DefaultTiers, sortedData, k + 1);
          assert sortedData[..|sortedData|] == sortedData;
          return;
        }
        var c := cell.value;
        CompleteHasEveryCell(newTiers, c);
        if row.priority == 1 {
          newTiers := newTiers[c := newTiers[c].(basePrice := row.rate, baseLimit := row.tierLimit.GetOr(0))];
        } else {
          newTiers := newTiers[c := newTiers[c].(extraPrice := row.rate)];
        }
      }
    }
    assert sortedData[..|sortedData|] == sortedData;
    loaded := newTiers;
  }

  lemma ApplyRowsSnoc(tiers: PricingConfig, rows: seq<Row>, k: int, before: PricingConfig)
    requires Complete(tiers) && Complete(before)
    requires 0 <= k < |rows| && ApplyRows(tiers, rows[..k]) == Some(before)
    ensures ApplyRows(tiers, rows[..k + 1]) == ApplyRow(before, rows[k])
  {
    assert rows[..k + 1][..k] == rows[..k];
  }

  /** Once a row has thrown, the rest of the rows do not matter. */
  lemma {:induction false} ApplyRowsStaysFailed(tiers: PricingConfig, rows: seq<Row>, k: nat)
    requires Complete(tiers)
    requires k <= |rows| && ApplyRows(tiers, rows[..k]).None?
    ensures ApplyRows(tiers, rows).None?
    decreases |rows| - k
  {
    if k < |rows| {
      assert rows[..k + 1][..k] == rows[..k];
      ApplyRowsStaysFailed(tiers, rows, k + 1);
    } else {
      assert rows[..k] == rows;
    }
  }

  /** Applying `a + b` is applying `a`, then `b` to what it gave. */
  lemma {:induction false} ApplyRowsConcat(tiers: PricingConfig, a: seq<Row>, b: seq<Row>)
    requires Complete(tiers)
    ensures ApplyRows(tiers, a + b) ==
      match ApplyRows(tiers, a)
      case None => None
      case Some(middle) => ApplyRows(middle, b)
    decreases |b|
  {
    if b == [] {
      assert a + b == a;
    } else {
      var front := b[..|b| - 1];
      assert (a + b)[..|a + b| - 1] == a + front;
      ApplyRowsConcat(tiers, a, front);
    }
  }

  /**
   * The field group `priority` of `cell` ends up with the values of the last row
   * that writes it, whatever came before, provided no row throws.
   */
  lemma {:induction false} LastWriterWins(tiers: PricingConfig, rows: seq<Row>, cell: Cell, priority: int, i: int)
    requires Complete(tiers) && ApplyRows(tiers, rows).Some?
    requires priority == 1 || priority == 2
    requires 0 <= i < |rows| && Writes(rows[i], cell, priority)
    requires forall j :: i < j < |rows| ==> !Writes(rows[j], cell, priority)
    ensures cell in ApplyRows(tiers, rows).value
    ensures priority == 1 ==>
      && ApplyRows(tiers, rows).value[cell].basePrice == rows[i].rate
      && ApplyRows(tiers, rows).value[cell].baseLimit == rows[i].tierLimit.GetOr(0)
    ensures priority == 2 ==> ApplyRows(tiers, rows).value[cell].extraPrice == rows[i].rate
    decreases |rows|
  {
    var front, last := rows[..|rows| - 1], rows[|rows| - 1];
    var before := ApplyRows(tiers, front).value;
    CompleteHasEveryCell(before, cell);
    if i < |rows| - 1 {
      LastWriterWins(tiers, front, cell, priority, i);
      assert !Writes(last, cell, priority);
    }
  }

  /** A field group no row writes keeps the value it started with. */
  lemma {:induction false} UnwrittenFieldKept(tiers: PricingConfig, rows: seq<Row>, cell: Cell, priority: int)
    requires Complete(tiers) && ApplyRows(tiers, rows).Some?
    requires priority == 1 || priority == 2
    requires forall j :: 0 <= j < |rows| ==> !Writes(rows[j], cell, priority)
    ensures cell in tiers && cell in ApplyRows(tiers, rows).value
    ensures priority == 1 ==>
      && ApplyRows(tiers, rows).value[cell].basePrice == tiers[cell].basePrice
      && ApplyRows(tiers, rows).value[cell].baseLimit == tiers[cell].baseLimit
    ensures priority == 2 ==> ApplyRows(tiers, rows).value[cell].extraPrice == tiers[cell].extraPrice
    decreases |rows|
  {
    CompleteHasEveryCell(tiers, cell);
    if rows != [] {
      var front := rows[..|rows| - 1];
      UnwrittenFieldKept(tiers, front, cell, priority);
      CompleteHasEveryCell(ApplyRows(tiers, front).value, cell);
    }
  }

  /**
   * An owner row overrides the system rows: the last owner row that writes a field
   * group decides it, whatever the system rows say.
   */
  lemma OwnerRowOverrides(tiers: PricingConfig, data: seq<Row>, cell: Cell, priority: int, k: int)
    requires ApplyRows(DefaultTiers, SortRows(data)).Some?
    requires priority == 1 || priority == 2
    requires 0 <= k < |OwnerRows(data)| && Writes(OwnerRows(data)[k], cell, priority)
    requires forall j :: k < j < |OwnerRows(data)| ==> !Writes(OwnerRows(data)[j], cell, priority)
    ensures cell in LoadedTiers(tiers, Some(data))
    ensures priority == 1 ==>
      && LoadedTiers(tiers, Some(data))[cell].basePrice == OwnerRows(data)[k].rate
      && LoadedTiers(tiers, Some(data))[cell].baseLimit == OwnerRows(data)[k].tierLimit.GetOr(0)
    ensures priority == 2 ==> LoadedTiers(tiers, Some(data))[cell].extraPrice == OwnerRows(data)[k].rate
  {
    assert LoadedTiers(tiers, Some(data)) == ApplyRows(DefaultTiers, SortRows(data)).value;
    LastWriterInSuffix(DefaultTiers, SystemRows(data), OwnerRows(data), cell, priority, k);
  }

  lemma LastWriterInSuffix(tiers: PricingConfig, prefix: seq<Row>, suffix: seq<Row>, cell: Cell, priority: int, k: int)
    requires Complete(tiers) && ApplyRows(tiers, prefix + suffix).Some?
    requires priority == 1 || priority == 2
    requires 0 <= k < |suffix| && Writes(suffix[k], cell, priority)
    requires forall j :: k < j < |suffix| ==> !Writes(suffix[j], cell, priority)
    ensures cell in ApplyRows(tiers, prefix + suffix).value
    ensures priority == 1 ==>
      && ApplyRows(tiers, prefix + suffix).value[cell].basePrice == suffix[k].rate
      && ApplyRows(tiers, prefix + suffix).value[cell].baseLimit == suffix[k].tierLimit.GetOr(0)
    ensures priority == 2 ==> ApplyRows(tiers, prefix + suffix).value[cell].extraPrice == suffix[k].rate
  {
    var rows := prefix + suffix;
    forall j | |prefix| + k < j < |rows|
      ensures !Writes(rows[j], cell, priority)
    {
      assert rows[j] == suffix[j - |prefix|];
    }
    LastWriterWins(tiers, rows, cell, priority, |prefix| + k);
  }

  // ---- Saving ----

  /** The two rows `handleSave` pushes for one cell, with upper-cased names. */
  function CellRows(ownerId: string, tiers: PricingConfig, cell: Cell): (rows: seq<Row>)
    requires cell in tiers
    ensures |rows| == 2 && rows[0].priority == 1 && rows[1].priority == 2
    ensures rows[0].ownerId == rows[1].ownerId == Some(ownerId)
  {
    var printType, sideType := ToUpper(TypeName(cell.printType)), ToUpper(SideName(cell.side));
    [ Row(Some(ownerId), printType, sideType, Some(tiers[cell].baseLimit), tiers[cell].basePrice, 1),
      Row(Some(ownerId), printType, sideType, None, tiers[cell].extraPrice, 2) ]
  }

  /** The rows for the cells in order. */
  function RowsFor(ownerId: string, tiers: PricingConfig, cells: seq<Cell>): (rows: seq<Row>)
    requires Complete(tiers)
    ensures |rows| == 2 * |cells|
    decreases |cells|
  {
    if cells == [] then []
    else
      CompleteHasEveryCell(tiers, cells[|cells| - 1]);
      RowsFor(ownerId, tiers, cells[..|cells| - 1]) + CellRows(ownerId, tiers, cells[|cells| - 1])
  }

  /** The rows `handleSave` upserts: both rows of each cell, `bw` before `color`, `single` before `double`. */
  function SaveRows(ownerId: string, tiers: PricingConfig): (rows: seq<Row>)
    requires Complete(tiers)
    ensures |rows| == 2 * |AllCells| == 8
  {
    RowsFor(ownerId, tiers, AllCells)
  }

  /** `handleSave`'s nested loops over the type names and the side names. */
  method HandleSave(ownerId: string, tiers: PricingConfig) returns (rows: seq<Row>)
    requires Complete(tiers)
    ensures rows == SaveRows(ownerId, tiers)
  {
    var types, sides := [BW, Color], [Single, Double];
    rows := [];
    for i := 0 to 2
      invariant rows == RowsFor(ownerId, tiers, AllCells[..2 * i])
    {
      for j := 0 to 2
        invariant rows == RowsFor(ownerId, tiers, AllCells[..2 * i + j])
      {
        var cell := Cell(types[i], sides[j]);
        CompleteHasEveryCell(tiers, cell);
        var config := tiers[cell];
        ghost var before := rows;
        rows := rows + [Row(Some(ownerId), ToUpper(TypeName(types[i])), ToUpper(SideName(sides[j])),
                            Some(config.baseLimit), config.basePrice, 1)];
        rows := rows + [Row(Some(ownerId), ToUpper(TypeName(types[i])), ToUpper(SideName(sides[j])),
                            None, config.extraPrice, 2)];
        assert rows == before + CellRows(ownerId, tiers, cell);
        assert AllCells[2 * i + j] == cell;
        RowsForSnoc(ownerId, tiers, AllCells, 2 * i + j);
      }
    }
    assert AllCells[..4] == AllCells;
  }

  lemma RowsForSnoc(ownerId: string, tiers: PricingConfig, cells: seq<Cell>, k: int)
    requires Complete(tiers) && 0 <= k < |cells|
    ensures cells[k] in tiers
    ensures RowsFor(ownerId, tiers, cells[..k + 1])
         == RowsFor(ownerId, tiers, cells[..k]) + CellRows(ownerId, tiers, cells[k])
  {
    CompleteHasEveryCell(tiers, cells[k]);
    assert cells[..k + 1][..k] == cells[..k];
  }

  /** Row `i` of the rows for `cells` is row `i % 2` of cell `i / 2`. */
  lemma {:induction false} RowsForIndex(ownerId: string, tiers: PricingConfig, cells: seq<Cell>, i: int)
    requires Complete(tiers) && 0 <= i < 2 * |cells|
    ensures cells[i / 2] in tiers
    ensures RowsFor(ownerId, tiers, cells)[i] == CellRows(ownerId, tiers, cells[i / 2])[i % 2]
    decreases |cells|
  {
    CompleteHasEveryCell(tiers, cells[i / 2]);
    var front := cells[..|cells| - 1];
    if i < 2 * |front| {
      RowsForIndex(ownerId, tiers, front, i);
    }
  }

  /** The upper-cased names `handleSave` writes. */
  lemma UpperNames()
    ensures ToUpper("bw") == "BW" && ToUpper("color") == "COLOR"
    ensures ToUpper("single") == "SINGLE" && ToUpper("double") == "DOUBLE"
  {
    assert ToUpper("bw") == ['B', 'W'];
    assert ToUpper("color") == ['C', 'O', 'L', 'O', 'R'];
    assert ToUpper("single") == ['S', 'I', 'N', 'G', 'L', 'E'];
    assert ToUpper("double") == ['D', 'O', 'U', 'B', 'L', 'E'];
  }

  /** Loading reads back the cell that saving named. */
  lemma NamesDecode(cell: Cell)
    ensures CellOf(ToUpper(TypeName(cell.printType)), ToUpper(SideName(cell.side))) == Some(cell)
  {
    UpperNames();
    assert ToLower("BW") == "bw" && ToLower("COLOR") == "color";
    assert ToLower("SINGLE") == "single" && ToLower("DOUBLE") == "double";
  }

  /**
   * Save emits eight rows, two per cell in the order of the nested loops: a
   * priority-1 row carrying the limit and the base price, and a priority-2 row
   * with no limit carrying the extra price, all owned by the user, with the
   * names upper-cased.
   */
  lemma SaveRowsContent(ownerId: string, tiers: PricingConfig)
    requires Complete(tiers)
    ensures |SaveRows(ownerId, tiers)| == 8
    ensures forall i :: 0 <= i < 8 ==>
      var row, cell := SaveRows(ownerId, tiers)[i], AllCells[i / 2];
      && cell in tiers
      && row.ownerId == Some(ownerId)
      && row.printType == ToUpper(TypeName(cell.printType))
      && row.sideType == ToUpper(SideName(cell.side))
      && row.priority == i % 2 + 1
      && (row.priority == 1 ==> row.tierLimit == Some(tiers[cell].baseLimit) && row.rate == tiers[cell].basePrice)
      && (row.priority == 2 ==> row.tierLimit.None? && row.rate == tiers[cell].extraPrice)
  {
    forall i | 0 <= i < 8
      ensures AllCells[i / 2] in tiers
      ensures SaveRows(ownerId, tiers)[i] == CellRows(ownerId, tiers, AllCells[i / 2])[i % 2]
    {
      RowsForIndex(ownerId, tiers, AllCells, i);
    }
  }

  /** The upsert's conflict key. */
  function Key(row: Row): (Option<string>, string, string, int) {
    (row.ownerId, row.printType, row.sideType, row.priority)
  }

  /** No two saved rows share a conflict key, so the upsert writes each of them. */
  lemma SavedKeysDistinct(ownerId: string, tiers: PricingConfig)
    requires Complete(tiers)
    ensures forall i, j :: 0 <= i < j < |SaveRows(ownerId, tiers)| ==>
      Key(SaveRows(ownerId, tiers)[i]) != Key(SaveRows(ownerId, tiers)[j])
  {
    var rows := SaveRows(ownerId, tiers);
    SaveRowsContent(ownerId, tiers);
    forall i, j | 0 <= i < j < |rows|
      ensures Key(rows[i]) != Key(rows[j])
    {
      var ci, cj := AllCells[i / 2], AllCells[j / 2];
      if i / 2 != j / 2 {
        assert ci != cj;
        NamesDecode(ci);
        NamesDecode(cj);
      }
    }
  }

  /** The card with the given cells taken from `tiers` and the rest from `start`. */
  function Overlay(start: PricingConfig, tiers: PricingConfig, cells: seq<Cell>): (r: PricingConfig)
    requires Complete(start) && Complete(tiers)
    ensures Complete(r)
    decreases |cells|
  {
    if cells == [] then start
    else
      var last := cells[|cells| - 1];
      CompleteHasEveryCell(tiers, last);
      Overlay(start, tiers, cells[..|cells| - 1])[last := tiers[last]]
  }

  lemma {:induction false} OverlayTakes(start: PricingConfig, tiers: PricingConfig, cells: seq<Cell>, cell: Cell)
    requires Complete(start) && Complete(tiers) && cell in cells
    ensures cell in tiers && cell in Overlay(start, tiers, cells)
    ensures Overlay(start, tiers, cells)[cell] == tiers[cell]
    decreases |cells|
  {
    CompleteHasEveryCell(tiers, cell);
    CompleteHasEveryCell(Overlay(start, tiers, cells), cell);
    var front := cells[..|cells| - 1];
    if cell != cells[|cells| - 1] {
      assert cell in front by {
        var k :| 0 <= k < |cells| && cells[k] == cell;
        assert front[k] == cell;
      }
      OverlayTakes(start, tiers, front, cell);
    }
  }

  /** The two rows of one cell install that cell's tier and touch nothing else. */
  lemma ApplyCellRows(start: PricingConfig, ownerId: string, tiers: PricingConfig, cell: Cell)
    requires Complete(start) && Complete(tiers)
    ensures cell in tiers
    ensures ApplyRows(start, CellRows(ownerId, tiers, cell)) == Some(start[cell := tiers[cell]])
  {
    CompleteHasEveryCell(tiers, cell);
    CompleteHasEveryCell(start, cell);
    NamesDecode(cell);
    var rows := CellRows(ownerId, tiers, cell);
    var tier := tiers[cell];
    var first := start[cell := start[cell].(basePrice := tier.basePrice, baseLimit := tier.baseLimit)];
    assert ApplyRow(start, rows[0]) == Some(first);
    assert rows[..1][..0] == [];
    assert ApplyRows(start, rows[..1]) == Some(first);
    assert rows[..1] == rows[..|rows| - 1];
    assert first[cell].(extraPrice := tier.extraPrice) == tier;
    assert first[cell := tier] == start[cell := tier];
  }

  lemma {:induction false} ApplyRowsForCells(start: PricingConfig, ownerId: string, tiers: PricingConfig, cells: seq<Cell>)
    requires Complete(start) && Complete(tiers)
    ensures ApplyRows(start, RowsFor(ownerId, tiers, cells)) == Some(Overlay(start, tiers, cells))
    decreases |cells|
  {
    if cells != [] {
      var front, last := cells[..|cells| - 1], cells[|cells| - 1];
      CompleteHasEveryCell(tiers, last);
      assert RowsFor(ownerId, tiers, cells) == RowsFor(ownerId, tiers, front) + CellRows(ownerId, tiers, last);
      ApplyRowsForCells(start, ownerId, tiers, front);
      ApplyRowsConcat(start, RowsFor(ownerId, tiers, front), CellRows(ownerId, tiers, last));
      ApplyCellRows(Overlay(start, tiers, front), ownerId, tiers, last);
    }
  }

  /** Round trip: the saved rows, applied to any complete card, give back the saved card. */
  lemma SaveLoadRoundTrip(start: PricingConfig, ownerId: string, tiers: PricingConfig)
    requires Complete(start) && Complete(tiers)
    ensures ApplyRows(start, SaveRows(ownerId, tiers)) == Some(tiers)
  {
    ApplyRowsForCells(start, ownerId, tiers, AllCells);
    var r := Overlay(start, tiers, AllCells);
    forall cell | cell in AllCells
      ensures cell in r && cell in tiers && r[cell] == tiers[cell]
    {
      OverlayTakes(start, tiers, AllCells, cell);
    }
    CellByCell(r, tiers);
  }

  /** Saved row `i` writes field group `i % 2 + 1` of cell `i / 2`. */
  lemma SavedRowWrites(ownerId: string, saved: PricingConfig, i: int)
    requires Complete(saved) && 0 <= i < 8
    ensures Writes(SaveRows(ownerId, saved)[i], AllCells[i / 2], i % 2 + 1)
  {
    SaveRowsContent(ownerId, saved);
    NamesDecode(AllCells[i / 2]);
  }

  /** Exactly one saved row writes a given field group of a given cell. */
  lemma OnlyWriter(ownerId: string, saved: PricingConfig, cell: Cell, priority: int, i: int)
    requires Complete(saved) && 0 <= i < 8
    requires Writes(SaveRows(ownerId, saved)[i], cell, priority)
    ensures i == 2 * CellIndex(cell) + priority - 1
  {
    SavedRowWrites(ownerId, saved, i);
    CellIndexOf(i / 2);
  }

  /** The saved row of a field group carries the saved values. */
  lemma SavedRowValues(ownerId: string, saved: PricingConfig, cell: Cell, priority: int)
    requires Complete(saved) && (priority == 1 || priority == 2)
    ensures cell in saved
    ensures var row := SaveRows(ownerId, saved)[2 * CellIndex(cell) + priority - 1];
      && Writes(row, cell, priority)
      && (priority == 1 ==> row.rate == saved[cell].basePrice && row.tierLimit.GetOr(0) == saved[cell].baseLimit)
      && (priority == 2 ==> row.rate == saved[cell].extraPrice)
  {
    var j := 2 * CellIndex(cell) + priority - 1;
    assert j / 2 == CellIndex(cell) && j % 2 + 1 == priority;
    SavedRowWrites(ownerId, saved, j);
    SaveRowsContent(ownerId, saved);
  }

  /** A row of one sequence is a row of any sequence with the same multiset. */
  lemma {:induction false} SameRows(a: seq<Row>, b: seq<Row>, i: int) returns (m: int)
    requires multiset(a) == multiset(b) && 0 <= i < |a|
    ensures 0 <= m < |b| && b[m] == a[i]
  {
    assert a[i] in multiset(b);
    m :| 0 <= m < |b| && b[m] == a[i];
  }

  /** The index of the last row, at `hi` or below, that writes the field group. */
  function LastWriterBelow(rows: seq<Row>, cell: Cell, priority: int, hi: int, i: int): (k: int)
    requires 0 <= i <= hi < |rows| && Writes(rows[i], cell, priority)
    requires forall j :: hi < j < |rows| ==> !Writes(rows[j], cell, priority)
    ensures i <= k <= hi && Writes(rows[k], cell, priority)
    ensures forall j :: k < j < |rows| ==> !Writes(rows[j], cell, priority)
    decreases hi
  {
    if Writes(rows[hi], cell, priority) then hi else LastWriterBelow(rows, cell, priority, hi - 1, i)
  }

  /** Rows that all name a cell never throw. */
  lemma {:induction false} NamedRowsNeverThrow(tiers: PricingConfig, rows: seq<Row>)
    requires Complete(tiers)
    requires forall i :: 0 <= i < |rows| ==> CellOf(rows[i].printType, rows[i].sideType).Some?
    ensures ApplyRows(tiers, rows).Some?
    decreases |rows|
  {
    if rows != [] {
      var front := rows[..|rows| - 1];
      assert forall i :: 0 <= i < |front| ==> front[i] == rows[i];
      NamedRowsNeverThrow(tiers, front);
    }
  }

  /** Every owner row is a saved row, and so names a cell. */
  lemma {:induction false} OwnerRowsNamed(owner: seq<Row>, ownerId: string, saved: PricingConfig)
    requires Complete(saved)
    requires multiset(owner) == multiset(SaveRows(ownerId, saved))
    ensures forall i :: 0 <= i < |owner| ==> CellOf(owner[i].printType, owner[i].sideType).Some?
  {
    forall i | 0 <= i < |owner|
      ensures CellOf(owner[i].printType, owner[i].sideType).Some?
    {
      OwnerRowNamed(owner, ownerId, saved, i);
    }
  }

  lemma {:induction false} OwnerRowNamed(owner: seq<Row>, ownerId: string, saved: PricingConfig, i: int)
    requires Complete(saved) && 0 <= i < |owner|
    requires multiset(owner) == multiset(SaveRows(ownerId, saved))
    ensures CellOf(owner[i].printType, owner[i].sideType).Some?
  {
    var m := SameRows(owner, SaveRows(ownerId, saved), i);
    SavedRowWrites(ownerId, saved, m);
  }

  /**
   * The last owner row that writes a field group is the one saved row that does,
   * whatever order the owner's rows come in.
   */
  lemma {:induction false} LastOwnerWriter(owner: seq<Row>, ownerId: string, saved: PricingConfig, cell: Cell, priority: int)
    returns (k: int)
    requires Complete(saved) && (priority == 1 || priority == 2)
    requires multiset(owner) == multiset(SaveRows(ownerId, saved))
    ensures 0 <= k < |owner| && owner[k] == SaveRows(ownerId, saved)[2 * CellIndex(cell) + priority - 1]
    ensures forall j :: k < j < |owner| ==> !Writes(owner[j], cell, priority)
  {
    var rows := SaveRows(ownerId, saved);
    var j := 2 * CellIndex(cell) + priority - 1;
    SavedRowValues(ownerId, saved, cell, priority);
    var i0 := SameRows(rows, owner, j);
    k := LastWriterBelow(owner, cell, priority, |owner| - 1, i0);
    var i := SameRows(owner, rows, k);
    OnlyWriter(ownerId, saved, cell, priority, i);
  }

  /** When the owner's rows are the saved rows in any order, each field group loads the saved value. */
  lemma {:induction false} SavedFieldLoaded(data: seq<Row>, ownerId: string, saved: PricingConfig, cell: Cell, priority: int)
    requires Complete(saved)
    requires multiset(OwnerRows(data)) == multiset(SaveRows(ownerId, saved))
    requires ApplyRows(DefaultTiers, SystemRows(data) + OwnerRows(data)).Some?
    requires priority == 1 || priority == 2
    ensures cell in saved && cell in ApplyRows(DefaultTiers, SystemRows(data) + OwnerRows(data)).value
    ensures var loaded := ApplyRows(DefaultTiers, SystemRows(data) + OwnerRows(data)).value;
      && (priority == 1 ==>
            loaded[cell].basePrice == saved[cell].basePrice && loaded[cell].baseLimit == saved[cell].baseLimit)
      && (priority == 2 ==> loaded[cell].extraPrice == saved[cell].extraPrice)
  {
    var owner := OwnerRows(data);
    var k := LastOwnerWriter(owner, ownerId, saved, cell, priority);
    SavedRowValues(ownerId, saved, cell, priority);
    LastWriterInSuffix(DefaultTiers, SystemRows(data), owner, cell, priority, k);
  }

  /** Both field groups of a cell load the saved values, so the cell loads the saved tier. */
  lemma {:induction false} SavedCellLoaded(data: seq<Row>, ownerId: string, saved: PricingConfig, cell: Cell)
    requires Complete(saved)
    requires multiset(OwnerRows(data)) == multiset(SaveRows(ownerId, saved))
    requires ApplyRows(DefaultTiers, SystemRows(data) + OwnerRows(data)).Some?
    ensures cell in saved && cell in ApplyRows(DefaultTiers, SystemRows(data) + OwnerRows(data)).value
    ensures ApplyRows(DefaultTiers, SystemRows(data) + OwnerRows(data)).value[cell] == saved[cell]
  {
    SavedFieldLoaded(data, ownerId, saved, cell, 1);
    SavedFieldLoaded(data, ownerId, saved, cell, 2);
  }

  /** The eight saved rows, in any order after the system rows, never throw. */
  lemma {:induction false} SavedRowsApply(data: seq<Row>, ownerId: string, saved: PricingConfig)
    requires Complete(saved)
    requires multiset(OwnerRows(data)) == multiset(SaveRows(ownerId, saved))
    requires ApplyRows(DefaultTiers, SystemRows(data)).Some?
    ensures |data| > 0
    ensures ApplyRows(DefaultTiers, SystemRows(data) + OwnerRows(data)).Some?
  {
    var owner, system := OwnerRows(data), SystemRows(data);
    assert |owner| == |multiset(owner)| == 8;
    OwnerRowsNamed(owner, ownerId, saved);
    NamedRowsNeverThrow(ApplyRows(DefaultTiers, system).value, owner);
    ApplyRowsConcat(DefaultTiers, system, owner);
  }

  /**
   * After a save, loading gives back the saved card whatever the system rows say
   * and in whatever order the owner's rows come, as long as no system row
   * throws: the owner's rows come last and cover every field.
   */
  lemma {:induction false} LoadAfterSave(tiers: PricingConfig, data: seq<Row>, ownerId: string, saved: PricingConfig)
    requires Complete(saved)
    requires multiset(OwnerRows(data)) == multiset(SaveRows(ownerId, saved))
    requires ApplyRows(DefaultTiers, SystemRows(data)).Some?
    ensures LoadedTiers(tiers, Some(data)) == saved
  {
    SavedRowsApply(data, ownerId, saved);
    var loaded := ApplyRows(DefaultTiers, SystemRows(data) + OwnerRows(data)).value;
    forall c | 0 <= c < |AllCells|
      ensures loaded[AllCells[c]] == saved[AllCells[c]]
    {
      SavedCellLoaded(data, ownerId, saved, AllCells[c]);
    }
    CellByCell(loaded, saved);
  }

  // ---- Editing ----

  /** The three inputs of a tier card, with the value already converted by `Number`. */
  datatype Edit = SetBasePrice(price: real) | SetBaseLimit(limit: int) | SetExtraPrice(extra: real)

  /** The tier with one field replaced. */
  function EditTier(tier: PricingTier, edit: Edit): (r: PricingTier)
    ensures r.basePrice == (if edit.SetBasePrice? then edit.price else tier.basePrice)
    ensures r.baseLimit == (if edit.SetBaseLimit? then edit.limit else tier.baseLimit)
    ensures r.extraPrice == (if edit.SetExtraPrice? then edit.extra else tier.extraPrice)
  {
    match edit
    case SetBasePrice(v) => tier.(basePrice := v)
    case SetBaseLimit(v) => tier.(baseLimit := v)
    case SetExtraPrice(v) => tier.(extraPrice := v)
  }

  /** `updateTier`: exactly one field of one cell changes, to the given value. */
  function UpdateTier(tiers: PricingConfig, cell: Cell, edit: Edit): (r: PricingConfig)
    requires cell in tiers
    ensures r.Keys == tiers.Keys
    ensures forall other :: other in tiers && other != cell ==> r[other] == tiers[other]
    ensures edit.SetBasePrice? ==>
      r[cell] == PricingTier(edit.price, tiers[cell].baseLimit, tiers[cell].extraPrice)
    ensures edit.SetBaseLimit? ==>
      r[cell] == PricingTier(tiers[cell].basePrice, edit.limit, tiers[cell].extraPrice)
    ensures edit.SetExtraPrice? ==>
      r[cell] == PricingTier(tiers[cell].basePrice, tiers[cell].baseLimit, edit.extra)
  {
    tiers[cell := EditTier(tiers[cell], edit)]
  }

  /** Entering the same value twice is the same as entering it once. */
  lemma UpdateTierIdempotent(tiers: PricingConfig, cell: Cell, edit: Edit)
    requires cell in tiers
    ensures UpdateTier(UpdateTier(tiers, cell, edit), cell, edit) == UpdateTier(tiers, cell, edit)
  {
  }

  predicate SameField(edit1: Edit, edit2: Edit) {
    || (edit1.SetBasePrice? && edit2.SetBasePrice?)
    || (edit1.SetBaseLimit? && edit2.SetBaseLimit?)
    || (edit1.SetExtraPrice? && edit2.SetExtraPrice?)
  }

  /** Edits to different cells, or to different fields of one cell, can be made in either order. */
  lemma UpdateTierCommutes(tiers: PricingConfig, cell1: Cell, edit1: Edit, cell2: Cell, edit2: Edit)
    requires cell1 in tiers && cell2 in tiers
    requires cell1 != cell2 || !SameField(edit1, edit2)
    ensures UpdateTier(UpdateTier(tiers, cell1, edit1), cell2, edit2)
         == UpdateTier(UpdateTier(tiers, cell2, edit2), cell1, edit1)
  {
  }
}
