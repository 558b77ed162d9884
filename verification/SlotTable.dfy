/**
 The node-by-slot table of tdma-helper.cc: how it is filled, and what installing it leaves in the
 controller's slot map. Column 0 holds the node id, column s + 1 the bit of slot s.
 */
module SlotTable {
  import opened MacQueue
  import opened TdmaModel
  import opened Tdma

  type Table = seq<seq<nat>>

  predicate Shaped(t: Table, cols: nat) {
    forall i :: 0 <= i < |t| ==> |t[i]| == cols
  }

  /** Some row of node `id` takes slot `s`. */
  predicate Claims(t: Table, cols: nat, id: nat, s: nat)
    requires Shaped(t, cols)
  {
    s + 1 < cols && exists i :: 0 <= i < |t| && t[i][0] == id && t[i][s + 1] == 1
  }

  /** The two assertions on cell (i, j): a bit, and nobody else's slot. */
  predicate CellOk(t: Table, cols: nat, i: nat, j: nat)
    requires Shaped(t, cols) && i < |t| && j < cols
  {
    (t[i][j] == 0 || t[i][j] == 1) && forall k :: 0 <= k < |t| && k != i ==> !(t[k][j] == 1 && t[i][j] == 1)
  }

  predicate RowOk(t: Table, cols: nat, i: nat)
    requires Shaped(t, cols) && i < |t|
  {
    forall j :: 1 <= j < cols ==> CellOk(t, cols, i, j)
  }

  predicate NodeOk(t: Table, cols: nat, id: nat)
    requires Shaped(t, cols) && 0 < cols
  {
    forall i :: 0 <= i < |t| && t[i][0] == id ==> RowOk(t, cols, i)
  }

  /** A node is refused exactly when some slot cell of one of its rows is no bit, or is 1 like that of another
      row. */
  lemma NodeFailsIff(t: Table, cols: nat, id: nat)
    requires Shaped(t, cols) && 0 < cols
    ensures !NodeOk(t, cols, id) <==>
      exists i, j :: 0 <= i < |t| && t[i][0] == id && 1 <= j < cols
                     && (1 < t[i][j] || (t[i][j] == 1 && exists k :: 0 <= k < |t| && k != i && t[k][j] == 1))
  {
    if i, j :| 0 <= i < |t| && t[i][0] == id && 1 <= j < cols
               && (1 < t[i][j] || (t[i][j] == 1 && exists k :: 0 <= k < |t| && k != i && t[k][j] == 1)) {
      assert !CellOk(t, cols, i, j);
    }
    if !NodeOk(t, cols, id) {
      var i :| 0 <= i < |t| && t[i][0] == id && !RowOk(t, cols, i);
      var j :| 1 <= j < cols && !CellOk(t, cols, i, j);
      assert 1 < t[i][j] || (t[i][j] == 1 && exists k :: 0 <= k < |t| && k != i && t[k][j] == 1);
    }
  }

  /** What a MAC `m` of node `id` adds to the map `before`: its slots, unless they were taken. */
  ghost predicate Adds(t: Table, cols: nat, id: nat, m: MacId, before: map<nat, MacId>, after: map<nat, MacId>)
    requires Shaped(t, cols) && 0 < cols
  {
    && (forall s :: s in after <==> s in before || Claims(t, cols, id, s))
    && (forall s :: s in after ==> after[s] == if s in before then before[s] else m)
  }

  /** Some installed node takes slot `s`. */
  predicate Wanted(t: Table, cols: nat, nodes: seq<nat>, s: nat)
    requires Shaped(t, cols)
  {
    exists n :: 0 <= n < |nodes| && Claims(t, cols, nodes[n], s)
  }

  /** MACs first, first + 1, ... go to the nodes in turn; slots owned before stay, any other slot ends up
      with the first node claiming it. */
  ghost predicate Installs(t: Table, cols: nat, nodes: seq<nat>, first: MacId,
                           before: map<nat, MacId>, after: map<nat, MacId>)
    requires Shaped(t, cols) && 0 < cols
  {
    && (forall s :: s in after <==> s in before || Wanted(t, cols, nodes, s))
    && (forall s :: s in after ==>
          if s in before then after[s] == before[s] else FirstClaim(t, cols, nodes, first, s, after[s]))
  }

  predicate FirstClaim(t: Table, cols: nat, nodes: seq<nat>, first: MacId, s: nat, m: MacId)
    requires Shaped(t, cols) && 0 < cols
  {
    && first <= m < first + |nodes| && Claims(t, cols, nodes[m - first], s)
    && (forall n :: 0 <= n < m - first ==> !Claims(t, cols, nodes[n], s))
  }

  predicate Taken(t: Table, cols: nat, j: nat)
    requires Shaped(t, cols) && j < cols
  {
    exists i :: 0 <= i < |t| && t[i][j] == 1
  }

  /** Every slot column has exactly one 1, all bits are bits, and no two rows share a node id. */
  predicate ExactCover(t: Table, cols: nat)
    requires Shaped(t, cols) && 0 < cols
  {
    && (forall i :: 0 <= i < |t| ==> RowOk(t, cols, i))
    && (forall j :: 1 <= j < cols ==> Taken(t, cols, j))
    && (forall i, k :: 0 <= i < k < |t| ==> t[i][0] != t[k][0])
  }

  // ---------------------------------------------------------------- installation

  lemma WantedMore(t: Table, cols: nat, nodes: seq<nat>, more: seq<nat>, s: nat)
    requires Shaped(t, cols)
    ensures Wanted(t, cols, nodes + more, s) <==> Wanted(t, cols, nodes, s) || Wanted(t, cols, more, s)
  {
    var all := nodes + more;
    if n :| 0 <= n < |nodes| && Claims(t, cols, nodes[n], s) {
      assert Claims(t, cols, all[n], s);
    }
    if n :| 0 <= n < |more| && Claims(t, cols, more[n], s) {
      assert Claims(t, cols, all[|nodes| + n], s);
    }
  }

  lemma Unwanted(t: Table, cols: nat, nodes: seq<nat>, s: nat)
    requires Shaped(t, cols) && !Wanted(t, cols, nodes, s)
    ensures forall n :: 0 <= n < |nodes| ==> !Claims(t, cols, nodes[n], s)
  {
  }

  /** Installing nodes one container after the other is installing them all at once. */
  lemma InstallTwice(t: Table, cols: nat, nodes: seq<nat>, more: seq<nat>, first: MacId,
                     before: map<nat, MacId>, middle: map<nat, MacId>, after: map<nat, MacId>)
    requires Shaped(t, cols) && 0 < cols && Installs(t, cols, nodes, first, before, middle)
    requires Installs(t, cols, more, first + |nodes|, middle, after)
    ensures Installs(t, cols, nodes + more, first, before, after)
  {
    hide Claims;
    var all := nodes + more;
    forall s ensures s in after <==> s in before || Wanted(t, cols, all, s) {
      WantedMore(t, cols, nodes, more, s);
    }
    forall s | s in after && s !in before ensures FirstClaim(t, cols, all, first, s, after[s]) {
      if s in middle {
        assert FirstClaim(t, cols, nodes, first, s, middle[s]);
      } else {
        assert FirstClaim(t, cols, more, first + |nodes|, s, after[s]);
        Unwanted(t, cols, nodes, s);
        forall n | 0 <= n < after[s] - first ensures !Claims(t, cols, all[n], s) {
          assert all[n] == if n < |nodes| then nodes[n] else more[n - |nodes|];
        }
      }
    }
  }

  lemma InstallSingle(t: Table, cols: nat, first: MacId, id: nat, before: map<nat, MacId>, after: map<nat, MacId>)
    requires Shaped(t, cols) && 0 < cols && Adds(t, cols, id, first, before, after)
    ensures Installs(t, cols, [id], first, before, after)
  {
    forall s ensures Wanted(t, cols, [id], s) <==> Claims(t, cols, id, s) {
      if Claims(t, cols, id, s) {
        assert Claims(t, cols, [id][0], s);
      }
    }
  }

  lemma InstallOne(t: Table, cols: nat, nodes: seq<nat>, first: MacId, id: nat,
                   before: map<nat, MacId>, middle: map<nat, MacId>, after: map<nat, MacId>)
    requires Shaped(t, cols) && 0 < cols
    requires Installs(t, cols, nodes, first, before, middle) && Adds(t, cols, id, first + |nodes|, middle, after)
    ensures Installs(t, cols, nodes + [id], first, before, after)
  {
    hide Installs, Adds;
    InstallSingle(t, cols, first + |nodes|, id, middle, after);
    InstallTwice(t, cols, nodes, [id], first, before, middle, after);
  }

  /** Installing an exact cover on all its nodes gives a map with domain exactly [0, numSlots), in which
      slot s belongs to the MAC of the one node whose row has the 1. */
  lemma InstallIsExact(t: Table, cols: nat, nodes: seq<nat>, first: MacId, slots: map<nat, MacId>)
    requires Shaped(t, cols) && 0 < cols && ExactCover(t, cols)
    requires Installs(t, cols, nodes, first, map[], slots)
    requires forall i :: 0 <= i < |t| ==> t[i][0] in nodes
    ensures forall s :: s in slots <==> 0 <= s < cols - 1
    ensures forall s, i :: 0 <= s < cols - 1 && 0 <= i < |t| && t[i][s + 1] == 1 ==>
      first <= slots[s] < first + |nodes| && nodes[slots[s] - first] == t[i][0]
  {
    forall s | 0 <= s < cols - 1 ensures s in slots {
      assert Taken(t, cols, s + 1);
      var i :| 0 <= i < |t| && t[i][s + 1] == 1;
      var n :| 0 <= n < |nodes| && nodes[n] == t[i][0];
      assert Claims(t, cols, nodes[n], s);
    }
    forall s, i | 0 <= s < cols - 1 && 0 <= i < |t| && t[i][s + 1] == 1
      ensures first <= slots[s] < first + |nodes| && nodes[slots[s] - first] == t[i][0]
    {
      assert FirstClaim(t, cols, nodes, first, s, slots[s]);
      var k :| 0 <= k < |t| && t[k][0] == nodes[slots[s] - first] && t[k][s + 1] == 1;
      assert RowOk(t, cols, i) && CellOk(t, cols, i, s + 1);
    }
  }

  /** The session chain never misses a slot exactly when there is a slot and every column has a 1 in
      the row of an installed node. */
  lemma CoveredIff(t: Table, cols: nat, nodes: seq<nat>, first: MacId, c: Config)
    requires Shaped(t, cols) && cols == c.total + 1 && Installs(t, cols, nodes, first, map[], c.slots)
    ensures Covered(c) <==> 0 < c.total && forall s :: 0 <= s < c.total ==> Wanted(t, cols, nodes, s)
  {
    assert !Wanted(t, cols, nodes, c.total);
    if Covered(c) {
      forall s | 0 <= s < c.total ensures Wanted(t, cols, nodes, s) {
        assert s in c.slots;
      }
    }
  }

  // ---------------------------------------------------------------- the default table

  /** Row i's block of consecutive slots, then one leftover slot for each of the first rows. */
  predicate InBlock(per: nat, i: nat, j: nat) {
    per * i < j <= per * i + per
  }

  predicate DefaultOne(rows: pos, slots: nat, i: nat, j: nat) {
    var per := slots / rows;
    InBlock(per, i, j) || (j == per * rows + i + 1 && j <= slots)
  }

  predicate IsDefault(t: Table, rows: pos, slots: nat) {
    && |t| == rows && Shaped(t, slots + 1)
    && (forall i :: 0 <= i < rows ==> t[i][0] == i)
    && (forall i, j :: 0 <= i < rows && 1 <= j < slots + 1 ==>
          t[i][j] == if DefaultOne(rows, slots, i, j) then 1 else 0)
  }

  lemma BlockFits(per: nat, i: nat, rows: nat)
    requires i < rows
    ensures per * i + per == per * (i + 1) <= per * rows
  {
    assert per * (i + 1) <= per * rows;
  }

  /** The row that owns column j. */
  function DefaultOwner(rows: pos, slots: nat, j: nat): (i: nat)
    requires 1 <= j <= slots
    ensures i < rows && DefaultOne(rows, slots, i, j)
  {
    var per := slots / rows;
    if j <= per * rows then
      OwnerOfBlock(per, rows, j);
      (j - 1) / per
    else
      LeftoverFits(rows, slots);
      j - per * rows - 1
  }

  lemma OwnerOfBlock(per: nat, rows: pos, j: nat)
    requires 1 <= j <= per * rows
    ensures 0 < per && (j - 1) / per < rows && InBlock(per, (j - 1) / per, j)
  {
    var i := (j - 1) / per;
    assert j - 1 == per * i + (j - 1) % per;
    if rows <= i {
      Monotone(per, rows, i);
    }
  }

  lemma Monotone(a: nat, b: nat, c: nat)
    requires b <= c
    ensures a * b <= a * c
  {
  }

  lemma LeftoverFits(rows: pos, slots: nat)
    ensures slots / rows * rows <= slots < slots / rows * rows + rows
  {
  }

  lemma BlocksApart(per: nat, i: nat, k: nat, j: nat)
    requires i < k && InBlock(per, i, j)
    ensures j <= per * k
  {
    BlockFits(per, i, k);
  }

  lemma DefaultOwnerUnique(rows: pos, slots: nat, j: nat, i: nat)
    requires 1 <= j <= slots && i < rows && DefaultOne(rows, slots, i, j)
    ensures i == DefaultOwner(rows, slots, j)
  {
    var per, o := slots / rows, DefaultOwner(rows, slots, j);
    if InBlock(per, i, j) {
      BlocksApart(per, i, rows, j);
      if i < o {
        BlocksApart(per, i, o, j);
      } else if o < i {
        BlocksApart(per, o, i, j);
      }
    } else if InBlock(per, o, j) {
      BlocksApart(per, o, rows, j);
    }
  }

  /** Every column of the default table has exactly one 1. */
  lemma DefaultIsExact(t: Table, rows: pos, slots: nat)
    requires IsDefault(t, rows, slots)
    ensures ExactCover(t, slots + 1)
    ensures forall j :: 1 <= j <= slots ==> t[DefaultOwner(rows, slots, j)][j] == 1
  {
    var cols := slots + 1;
    forall i, j | 0 <= i < rows && 1 <= j < cols ensures CellOk(t, cols, i, j) {
      if t[i][j] == 1 {
        DefaultOwnerUnique(rows, slots, j, i);
        forall k | 0 <= k < rows && k != i ensures t[k][j] != 1 {
          if t[k][j] == 1 {
            DefaultOwnerUnique(rows, slots, j, k);
          }
        }
      }
    }
    forall j | 1 <= j <= slots ensures t[DefaultOwner(rows, slots, j)][j] == 1 && Taken(t, cols, j) {
      assert DefaultOne(rows, slots, DefaultOwner(rows, slots, j), j);
    }
    assert forall i :: 0 <= i < rows ==> RowOk(t, cols, i);
  }

  /** The number of 1s in columns 1..j. */
  function Ones(row: seq<nat>, j: nat): nat
    requires j < |row|
  {
    if j == 0 then 0 else Ones(row, j - 1) + (if row[j] == 1 then 1 else 0)
  }

  function Clip(x: int, hi: nat): nat {
    if x < 0 then 0 else if x < hi then x else hi
  }

  /** A row with a block of `per` ones after `base`, and one more at column `extra` beyond it. */
  lemma {:induction false} CountBlock(row: seq<nat>, base: nat, per: nat, extra: nat, j: nat)
    requires j < |row| && base + per < extra
    requires forall k :: 1 <= k <= j ==> (row[k] == 1 <==> base < k <= base + per || k == extra)
    ensures Ones(row, j) == Clip(j - base, per) + (if extra <= j then 1 else 0)
  {
    if j > 0 {
      CountBlock(row, base, per, extra, j - 1);
    }
  }

  lemma DefaultCell(t: Table, rows: pos, slots: nat, i: nat, j: nat)
    requires IsDefault(t, rows, slots) && i < rows && 1 <= j <= slots
    ensures var per := slots / rows;
            t[i][j] == 1 <==> per * i < j <= per * i + per || j == per * rows + i + 1
  {
  }

  lemma DefaultOnes(t: Table, rows: pos, slots: nat, i: nat)
    requires IsDefault(t, rows, slots) && i < rows
    ensures var per := slots / rows;
            Ones(t[i], slots) == Clip(slots - per * i, per) + (if per * rows + i + 1 <= slots then 1 else 0)
  {
    hide Clip, Ones, DefaultOne;
    var per := slots / rows;
    var base, extra := per * i, per * rows + i + 1;
    BlockFits(per, i, rows);
    forall k | 1 <= k <= slots ensures t[i][k] == 1 <==> base < k <= base + per || k == extra {
      DefaultCell(t, rows, slots, i, k);
    }
    CountBlock(t[i], base, per, extra, slots);
  }

  /** Fairness: row i gets slots / rows slots, and the first slots % rows rows one more. */
  lemma DefaultIsFair(t: Table, rows: pos, slots: nat, i: nat)
    requires IsDefault(t, rows, slots) && i < rows
    ensures Ones(t[i], slots) == slots / rows + (if i < slots % rows then 1 else 0)
  {
    DefaultOnes(t, rows, slots, i);
    Shares(slots, rows, i);
  }

  lemma Shares(slots: nat, rows: pos, i: nat)
    requires i < rows
    ensures var per := slots / rows;
            Clip(slots - per * i, per) == per && (per * rows + i + 1 <= slots <==> i < slots % rows)
  {
    var per, rest := slots / rows, slots % rows;
    assert slots == per * rows + rest;
    BlockFits(per, i, rows);
  }

  /** End to end: with the default table and all its nodes installed no assertion fails, and the session
      chain of the controller never misses a slot, provided there is a slot at all. */
  lemma DefaultNetworkCovered(t: Table, rows: pos, cols: nat, nodes: seq<nat>, first: MacId, c: Config)
    requires cols == c.total + 1 && IsDefault(t, rows, c.total) && Installs(t, cols, nodes, first, map[], c.slots)
    requires forall i :: 0 <= i < rows ==> i in nodes
    ensures forall id :: NodeOk(t, cols, id)
    ensures Covered(c) <==> 0 < c.total
  {
    DefaultIsExact(t, rows, c.total);
    CoveredIff(t, cols, nodes, first, c);
    forall s | 0 <= s < c.total ensures Wanted(t, cols, nodes, s) {
      var i := DefaultOwner(rows, c.total, s + 1);
      assert i in nodes;
      var n :| 0 <= n < |nodes| && nodes[n] == i;
      assert Claims(t, cols, nodes[n], s);
    }
  }

  // ---------------------------------------------------------------- the helper object

  class TdmaHelper {
    const numRows: nat
    const numCols: nat
    const table: array2<nat>

    ghost predicate Valid() {
      table.Length0 == numRows && table.Length1 == numCols && 0 < numCols
    }

    ghost function Cells(): (t: Table)
      requires Valid()
      reads table
      ensures |t| == numRows && Shaped(t, numCols)
      ensures forall i, j :: 0 <= i < numRows && 0 <= j < numCols ==> t[i][j] == table[i, j]
    {
      seq(numRows, i requires 0 <= i < numRows && Valid() reads table =>
        seq(numCols, j requires 0 <= j < numCols && Valid() reads table => table[i, j]))
    }

    /** The table for `numNodes` nodes and `numSlots` slots; the program divides by the number of nodes. */
    constructor Default(numNodes: pos, numSlots: nat)
      ensures Valid() && fresh(table) && numRows == numNodes && numCols == numSlots + 1
      ensures IsDefault(Cells(), numNodes, numSlots)
    {
      numRows, numCols := numNodes, numSlots + 1;
      table := new nat[numNodes, numSlots + 1];
      new;
      Allocate2D();
      var stopped := SetDefaultSlots();
    }

    /** A table with node ids and no slots, to be filled by SetSlots. */
    constructor Sized(numNodes: nat, numSlots: nat)
      ensures Valid() && fresh(table) && numRows == numNodes && numCols == numSlots + 1
      ensures forall i, j :: 0 <= i < numRows && 0 <= j < numCols ==> table[i, j] == if j == 0 then i else 0
    {
      numRows, numCols := numNodes, numSlots + 1;
      table := new nat[numNodes, numSlots + 1];
      new;
      Allocate2D();
    }

    method Allocate2D()
      requires Valid()
      modifies table
      ensures forall i, j :: 0 <= i < numRows && 0 <= j < numCols ==> table[i, j] == if j == 0 then i else 0
    {
      for i := 0 to numRows
        invariant forall k, j :: 0 <= k < i && 0 <= j < numCols ==> table[k, j] == if j == 0 then k else 0
      {
        table[i, 0] := i;
        for j := 1 to numCols
          invariant forall k, j :: 0 <= k < i && 0 <= j < numCols ==> table[k, j] == if j == 0 then k else 0
          invariant forall k :: 0 <= k < j ==> table[i, k] == if k == 0 then i else 0
        {
          table[i, j] := 0;
        }
      }
    }

    /** The guard before each write lets one column too many through, but it is never reached. */
    method SetDefaultSlots() returns (stopped: bool)
      requires Valid() && 0 < numRows
      requires forall i, j :: 0 <= i < numRows && 0 <= j < numCols ==> table[i, j] == if j == 0 then i else 0
      modifies table
      ensures !stopped && IsDefault(Cells(), numRows, numCols - 1)
    {
      var continuousSlots := (numCols - 1) / numRows;
      LeftoverFits(numRows, numCols - 1);
      stopped := false;
      for i := 0 to numRows
        invariant !stopped
        invariant Filled(i, continuousSlots)
      {
        var r := SetBlock(i, continuousSlots);
        stopped := stopped || r;
      }
      var remainingSlots := numCols - 1 - continuousSlots * numRows;
      for i := 0 to remainingSlots
        invariant forall k, j :: 0 <= k < numRows && 0 <= j < numCols ==>
                    table[k, j] == if j == 0 then k
                                   else if InBlock(continuousSlots, k, j) then 1
                                   else if k < i && j == continuousSlots * numRows + k + 1 then 1 else 0
      {
        table[i, continuousSlots * numRows + i + 1] := 1;
      }
    }

    /** The rows before `rows` have their blocks, and nothing else is set. */
    ghost predicate Filled(rows: nat, per: nat)
      requires Valid()
      reads table
    {
      forall k, j :: 0 <= k < numRows && 0 <= j < numCols ==>
        table[k, j] == if j == 0 then k else if k < rows && InBlock(per, k, j) then 1 else 0
    }

    /** The while loop of row i. */
    method SetBlock(i: nat, continuousSlots: nat) returns (stopped: bool)
      requires Valid() && i < numRows && continuousSlots * numRows < numCols && Filled(i, continuousSlots)
      modifies table
      ensures !stopped && Filled(i + 1, continuousSlots)
    {
      BlockFits(continuousSlots, i, numRows);
      var tmp := 0;
      stopped := false;
      while tmp < continuousSlots
        invariant 0 <= tmp <= continuousSlots && !stopped
        invariant forall k, j :: 0 <= k < numRows && 0 <= j < numCols ==>
                    table[k, j] == if j == 0 then k
                                   else if k < i && InBlock(continuousSlots, k, j) then 1
                                   else if k == i && continuousSlots * i < j <= continuousSlots * i + tmp then 1 else 0
      {
        tmp := tmp + 1;
        if continuousSlots * i + tmp > numCols {
          stopped := true;
          break;
        }
        table[i, continuousSlots * i + tmp] := 1;
      }
    }

    /** Copies the parsed rows. A row shorter than the first numCols entries would be read past its end. */
    method SetSlots(slotArrays: Table) returns (inBounds: bool)
      requires Valid()
      modifies table
      ensures inBounds <==> numRows <= |slotArrays| && forall i :: 0 <= i < numRows ==> numCols <= |slotArrays[i]|
      ensures inBounds ==> forall i, j :: 0 <= i < numRows && 0 <= j < numCols ==> table[i, j] == slotArrays[i][j]
    {
      for i := 0 to numRows
        invariant i <= |slotArrays| && forall k :: 0 <= k < i ==> numCols <= |slotArrays[k]|
        invariant forall k, j :: 0 <= k < i && 0 <= j < numCols ==> table[k, j] == slotArrays[k][j]
      {
        if |slotArrays| <= i || |slotArrays[i]| < numCols {
          return false;
        }
        table[i, 0] := slotArrays[i][0];
        for j := 1 to numCols
          invariant forall k, j :: 0 <= k < i && 0 <= j < numCols ==> table[k, j] == slotArrays[k][j]
          invariant forall k :: 0 <= k < j ==> table[i, k] == slotArrays[i][k]
        {
          table[i, j] := slotArrays[i][j];
        }
      }
      return true;
    }

    /** The columns of row i. */
    method AssignRow(mac: TdmaCentralMac, i: nat, ghost before: map<nat, MacId>) returns (ok: bool)
      requires Valid() && i < numRows && mac.Attached()
      requires Given(Cells(), numCols, table[i, 0], mac.id, before, mac.controller.Cfg().slots, i, 1)
      modifies mac.controller`slotPtrs
      ensures mac.Attached() && ok == RowOk(Cells(), numCols, i)
      ensures ok ==> Given(Cells(), numCols, table[i, 0], mac.id, before, mac.controller.Cfg().slots, i + 1, 1)
      ensures mac.controller.Cfg() == old(mac.controller.Cfg()).(slots := mac.controller.Cfg().slots)
    {
      hide CellOk, RowOk, Given, TdmaCentralMac.Attached, TdmaController.Cfg, TdmaController.Valid;
      ghost var t := Cells();
      for j := 1 to numCols
        invariant mac.Attached()
        invariant Given(t, numCols, table[i, 0], mac.id, before, mac.controller.Cfg().slots, i, j)
        invariant mac.controller.Cfg() == old(mac.controller.Cfg()).(slots := mac.controller.Cfg().slots)
        invariant forall k :: 1 <= k < j ==> CellOk(t, numCols, i, k)
      {
        if table[i, j] != 0 && table[i, j] != 1 {
          BadCell(t, numCols, i, j);
          return false;
        }
        for k := 0 to numRows
          invariant forall m :: 0 <= m < k && m != i ==> !(t[m][j] == 1 && t[i][j] == 1)
        {
          if k != i {
            if table[k, j] == 1 && table[i, j] == 1 {
              Clash(t, numCols, i, j, k);
              return false;
            }
          }
        }
        GoodCell(t, numCols, i, j);
        GiveNext(t, numCols, mac.id, before, mac.controller.Cfg().slots, i, j);
        if table[i, j] == 1 {
          mac.controller.AddTdmaSlot(j - 1, mac);
        }
      }
      GoodRow(t, numCols, i);
      GiveRow(t, numCols, mac.id, before, mac.controller.Cfg().slots, i);
      return true;
    }

    /** The controller's slots go to `mac` where the rows of node `nodeId` say 1, unless they are taken. */
    method AssignTdmaSlots(mac: TdmaCentralMac, nodeId: nat) returns (ok: bool)
      requires Valid() && mac.Attached()
      modifies mac.controller`slotPtrs
      ensures mac.Attached() && ok == NodeOk(Cells(), numCols, nodeId)
      ensures mac.controller.Cfg() == old(mac.controller.Cfg()).(slots := mac.controller.Cfg().slots)
      ensures ok ==> Adds(Cells(), numCols, nodeId, mac.id, old(mac.controller.Cfg()).slots, mac.controller.Cfg().slots)
    {
      hide RowOk, Given, TdmaCentralMac.Attached, TdmaController.Cfg;
      ghost var t, before := Cells(), mac.controller.Cfg().slots;
      GiveStart(t, numCols, nodeId, mac.id, before);
      for i := 0 to numRows
        invariant mac.Attached() && Given(t, numCols, nodeId, mac.id, before, mac.controller.Cfg().slots, i, 1)
        invariant mac.controller.Cfg() == old(mac.controller.Cfg()).(slots := mac.controller.Cfg().slots)
        invariant forall k :: 0 <= k < i && t[k][0] == nodeId ==> RowOk(t, numCols, k)
      {
        if table[i, 0] == nodeId {
          var fine := AssignRow(mac, i, before);
          if !fine {
            return false;
          }
        } else {
          GiveNone(t, numCols, nodeId, mac.id, before, mac.controller.Cfg().slots, i);
        }
      }
      GiveAll(t, numCols, nodeId, mac.id, before, mac.controller.Cfg().slots);
      return true;
    }

    method NewMac(c: TdmaController, address: MacId, maxSize: nat, maxDelay: int) returns (mac: TdmaCentralMac)
      requires c.Valid() && address !in c.macs && Initial(c.Cfg(), c.abs)
      modifies c`macs, c`abs
      ensures mac.Attached() && mac.controller == c && mac.id == address
      ensures Initial(c.Cfg(), c.abs) && c.macs.Keys == old(c.macs.Keys) + {address}
    {
      hide Initial, TdmaController.Cfg;
      var queue := new TdmaMacQueue(maxSize, maxDelay);
      mac := new TdmaCentralMac(address, queue, c);
      ghost var was := c.abs;
      c.Attach(mac);
      InitialWithMac(c.Cfg(), was, address, queue.Value());
    }

    /** A MAC with an empty queue for `node`, and its slots. */
    method InstallNode(c: TdmaController, node: nat, address: MacId, maxSize: nat, maxDelay: int) returns (ok: bool)
      requires Valid() && c.Valid() && address !in c.macs && Initial(c.Cfg(), c.abs)
      modifies c`macs, c`abs, c`slotPtrs
      ensures c.Valid() && Initial(c.Cfg(), c.abs) && c.macs.Keys == old(c.macs.Keys) + {address}
      ensures c.Cfg() == old(c.Cfg()).(slots := c.Cfg().slots) && ok == NodeOk(Cells(), numCols, node)
      ensures ok ==> Adds(Cells(), numCols, node, address, old(c.Cfg()).slots, c.Cfg().slots)
    {
      hide Adds, NodeOk, Initial, TdmaController.Cfg, TdmaController.Wired, TdmaController.Mirrors;
      ghost var was := c.Cfg();
      var mac := NewMac(c, address, maxSize, maxDelay);
      ok := AssignTdmaSlots(mac, node);
      c.SlotsOwned();
      StaysInitial(was, c.Cfg().slots, c.abs);
    }

    /** The nodes of the container in turn, with MACs first, first + 1, ...: addresses are handed out in
        ascending order. The controller may have MACs and slots from earlier calls. */
    method Install(c: TdmaController, nodes: seq<nat>, first: MacId, maxSize: nat, maxDelay: int) returns (ok: bool)
      requires Valid() && c.Valid() && Initial(c.Cfg(), c.abs) && forall m :: m in c.macs.Keys ==> m < first
      modifies c`macs, c`abs, c`slotPtrs
      ensures c.Valid() && Initial(c.Cfg(), c.abs) && c.Cfg() == old(c.Cfg()).(slots := c.Cfg().slots)
      ensures ok <==> forall n :: 0 <= n < |nodes| ==> NodeOk(Cells(), numCols, nodes[n])
      ensures ok ==> Installs(Cells(), numCols, nodes, first, old(c.Cfg()).slots, c.Cfg().slots)
      ensures forall m :: m in c.macs.Keys ==> m < first + |nodes|
    {
      hide Adds, NodeOk, Installs, Initial, TdmaController.Cfg, TdmaController.Valid;
      ghost var t, was := Cells(), c.Cfg().slots;
      InstallNone(t, numCols, first, was);
      for i := 0 to |nodes|
        invariant c.Valid() && Initial(c.Cfg(), c.abs) && c.Cfg() == old(c.Cfg()).(slots := c.Cfg().slots)
        invariant forall m :: m in c.macs.Keys ==> m < first + i
        invariant Installs(t, numCols, nodes[..i], first, was, c.Cfg().slots)
        invariant forall n :: 0 <= n < i ==> NodeOk(t, numCols, nodes[n])
      {
        ghost var before := c.Cfg().slots;
        var fine := InstallNode(c, nodes[i], first + i, maxSize, maxDelay);
        if !fine {
          return false;
        }
        InstallOne(t, numCols, nodes[..i], first, nodes[i], was, before, c.Cfg().slots);
        assert nodes[..i + 1] == nodes[..i] + [nodes[i]];
      }
      assert nodes[..|nodes|] == nodes;
      return true;
    }
  }

  lemma InitialWithMac(c: Config, s: State, m: MacId, f: Fifo)
    requires Initial(c, s) && m !in s.queues && f == Fifo([], 0, f.maxSize, f.maxDelay, 0, [])
    ensures Initial(c, SetQueue(s, m, f, []))
  {
  }

  lemma StaysInitial(c: Config, slots: map<nat, MacId>, s: State)
    requires Initial(c, s) && forall k :: k in slots ==> slots[k] in s.queues
    ensures Initial(c.(slots := slots), s)
  {
  }

  lemma InstallNone(t: Table, cols: nat, first: MacId, before: map<nat, MacId>)
    requires Shaped(t, cols) && 0 < cols
    ensures Installs(t, cols, [], first, before, before)
  {
  }

  // ---------------------------------------------------------------- the progress of AssignTdmaSlots

  /** Slot `s` is claimed by a row of `id` before row `i`, or by row `i` before column `j`. */
  predicate ClaimedBefore(t: Table, cols: nat, id: nat, i: nat, j: nat, s: nat)
    requires Shaped(t, cols)
  {
    s + 1 < cols && exists k :: 0 <= k < |t| && t[k][0] == id && t[k][s + 1] == 1 && (k < i || (k == i && s + 1 < j))
  }

  ghost predicate Given(t: Table, cols: nat, id: nat, m: MacId, before: map<nat, MacId>, after: map<nat, MacId>,
                        i: nat, j: nat)
    requires Shaped(t, cols)
  {
    && (forall s :: s in after <==> s in before || ClaimedBefore(t, cols, id, i, j, s))
    && (forall s :: s in after ==> after[s] == if s in before then before[s] else m)
  }

  lemma BadCell(t: Table, cols: nat, i: nat, j: nat)
    requires Shaped(t, cols) && i < |t| && 1 <= j < cols && t[i][j] != 0 && t[i][j] != 1
    ensures !RowOk(t, cols, i)
  {
    assert !CellOk(t, cols, i, j);
  }

  lemma Clash(t: Table, cols: nat, i: nat, j: nat, k: nat)
    requires Shaped(t, cols) && i < |t| && 1 <= j < cols && k < |t| && k != i && t[k][j] == 1 && t[i][j] == 1
    ensures !RowOk(t, cols, i)
  {
    assert !CellOk(t, cols, i, j);
  }

  lemma GoodCell(t: Table, cols: nat, i: nat, j: nat)
    requires Shaped(t, cols) && i < |t| && j < cols && (t[i][j] == 0 || t[i][j] == 1)
    requires forall m :: 0 <= m < |t| && m != i ==> !(t[m][j] == 1 && t[i][j] == 1)
    ensures CellOk(t, cols, i, j)
  {
  }

  lemma GoodRow(t: Table, cols: nat, i: nat)
    requires Shaped(t, cols) && i < |t| && forall j :: 1 <= j < cols ==> CellOk(t, cols, i, j)
    ensures RowOk(t, cols, i)
  {
  }

  lemma GiveStart(t: Table, cols: nat, id: nat, m: MacId, before: map<nat, MacId>)
    requires Shaped(t, cols)
    ensures Given(t, cols, id, m, before, before, 0, 1)
  {
  }

  lemma GiveNext(t: Table, cols: nat, m: MacId, before: map<nat, MacId>, after: map<nat, MacId>, i: nat, j: nat)
    requires Shaped(t, cols) && i < |t| && 1 <= j < cols && Given(t, cols, t[i][0], m, before, after, i, j)
    ensures Given(t, cols, t[i][0], m, before,
                  if t[i][j] == 1 && j - 1 !in after then after[j - 1 := m] else after, i, j + 1)
  {
    forall s ensures ClaimedBefore(t, cols, t[i][0], i, j + 1, s)
                 <==> ClaimedBefore(t, cols, t[i][0], i, j, s) || (s == j - 1 && t[i][j] == 1)
    {
    }
  }

  lemma GiveRow(t: Table, cols: nat, m: MacId, before: map<nat, MacId>, after: map<nat, MacId>, i: nat)
    requires Shaped(t, cols) && i < |t| && 0 < cols && Given(t, cols, t[i][0], m, before, after, i, cols)
    ensures Given(t, cols, t[i][0], m, before, after, i + 1, 1)
  {
    forall s ensures ClaimedBefore(t, cols, t[i][0], i + 1, 1, s) <==> ClaimedBefore(t, cols, t[i][0], i, cols, s) {
    }
  }

  lemma GiveNone(t: Table, cols: nat, id: nat, m: MacId, before: map<nat, MacId>, after: map<nat, MacId>, i: nat)
    requires Shaped(t, cols) && i < |t| && 0 < cols && t[i][0] != id && Given(t, cols, id, m, before, after, i, 1)
    ensures Given(t, cols, id, m, before, after, i + 1, 1)
  {
    forall s ensures ClaimedBefore(t, cols, id, i + 1, 1, s) <==> ClaimedBefore(t, cols, id, i, 1, s) {
    }
  }

  lemma GiveAll(t: Table, cols: nat, id: nat, m: MacId, before: map<nat, MacId>, after: map<nat, MacId>)
    requires Shaped(t, cols) && 0 < cols && Given(t, cols, id, m, before, after, |t|, 1)
    ensures Adds(t, cols, id, m, before, after)
  {
    forall s ensures ClaimedBefore(t, cols, id, |t|, 1, s) <==> Claims(t, cols, id, s) {
    }
  }
}
