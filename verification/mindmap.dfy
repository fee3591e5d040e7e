/** `create_mindmap_xml`, `get_git_branch` and the naming and counting in `main`
    of observability-design/scripts/generate_drawio.py. The diagram is modelled as
    the sequence of `mxCell` elements in document order, not as an XML tree. */
module Mindmap {
  import opened Wrappers
  import opened Text

  /** One module of a branch: its name and its items, in the order of the input. */
  datatype Module = Module(name: string, items: seq<string>)

  /** The input: for each present top-level key, its modules in order. */
  type MindmapData = map<string, seq<Module>>

  /** An `mxCell`. The two layer cells have ids 0 and 1; a vertex carries its
      depth in the tree (`level`: 0 root, 1 branch, 2 module, 3 item), its colours
      and its geometry; an edge carries its source and target ids and stroke width.
      The fixed style strings are otherwise not modelled. */
  datatype Cell =
    | Layer(id: nat, parent: Option<nat>)
    | Vertex(id: nat, value: string, level: nat, fill: string, stroke: string,
             x: int, y: int, width: nat, height: nat)
    | Edge(id: nat, source: nat, target: nat, strokeWidth: nat)

  /** One entry of `branch_configs`. */
  datatype BranchConfig = BranchConfig(name: string, key: string, x: int, y: int, fill: string, stroke: string)

  const CenterX: int := 1000
  const CenterY: int := 750
  const RootLabel: string := "\U{53EF}\U{89C2}\U{6D4B}\U{6027}\U{8BBE}\U{8BA1}"

  /** Logging, monitoring, alerting: the fixed order of the three branches. */
  const Branches: seq<BranchConfig> := [
    BranchConfig("\U{65E5}\U{5FD7}", "logging", CenterX - 600, CenterY - 400, "#fff2cc", "#d6b656"),
    BranchConfig("\U{76D1}\U{63A7}", "monitoring", CenterX, CenterY - 500, "#d5e8d4", "#82b366"),
    BranchConfig("\U{62A5}\U{8B66}", "alerting", CenterX + 600, CenterY - 400, "#f8cecc", "#b85450")
  ]

  /** The two layer cells and the root node. */
  const Header: seq<Cell> := [
    Layer(0, None), Layer(1, Some(0)),
    Vertex(2, RootLabel, 0, "#f5f5f5", "#666666", CenterX - 100, CenterY - 50, 200, 100)
  ]

  /** The item nodes of one module and their edges, the first with id `firstId`. */
  function ItemCells(b: BranchConfig, moduleId: nat, moduleX: int, moduleY: int, items: seq<string>, firstId: nat)
    : (r: seq<Cell>)
    ensures |r| == 2 * |items|
  {
    if items == [] then []
    else
      var n := |items| - 1;
      ItemCells(b, moduleId, moduleX, moduleY, items[..n], firstId)
      + [Vertex(firstId + 2 * n, items[n], 3, b.fill, b.stroke, moduleX + 200, moduleY + 60 * n, 200, 40),
         Edge(firstId + 2 * n + 1, moduleId, firstId + 2 * n, 1)]
  }

  /** A module node at height `y`, its edge from the branch, then its items. */
  function ModuleCells(b: BranchConfig, branchId: nat, m: Module, id: nat, y: int): (r: seq<Cell>)
    ensures |r| == 2 + 2 * |m.items|
  {
    [Vertex(id, m.name, 2, b.fill, b.stroke, b.x + 200, y, 120, 50), Edge(id + 1, branchId, id, 1)]
    + ItemCells(b, id, b.x + 200, y, m.items, id + 2)
  }

  /** Number of cells the modules produce. */
  function ModulesSize(mods: seq<Module>): nat
  {
    if mods == [] then 0 else ModulesSize(mods[..|mods| - 1]) + 2 + 2 * |mods[|mods| - 1].items|
  }

  /** `module_y_offset` after the modules: each advances it by
      `max(len(items) * 60, 80)`. */
  function ModulesSpan(mods: seq<Module>): nat
  {
    if mods == [] then 0
    else
      var n := |mods[|mods| - 1].items|;
      ModulesSpan(mods[..|mods| - 1]) + if 60 * n > 80 then 60 * n else 80
  }

  /** The cells of a branch's modules, the first with id `firstId`. */
  function ModulesCells(b: BranchConfig, branchId: nat, mods: seq<Module>, firstId: nat): (r: seq<Cell>)
    ensures |r| == ModulesSize(mods)
  {
    if mods == [] then []
    else
      var init := mods[..|mods| - 1];
      ModulesCells(b, branchId, init, firstId)
      + ModuleCells(b, branchId, mods[|mods| - 1], firstId + ModulesSize(init), b.y + ModulesSpan(init))
  }

  lemma ModulesAppendOne(cells: seq<Cell>, b: BranchConfig, branchId: nat, mods: seq<Module>, m: nat)
    requires m < |mods|
    ensures (cells + ModulesCells(b, branchId, mods[..m], branchId + 2))
            + ModuleCells(b, branchId, mods[m], branchId + 2 + ModulesSize(mods[..m]), b.y + ModulesSpan(mods[..m]))
            == cells + ModulesCells(b, branchId, mods[..m + 1], branchId + 2)
  {
    assert mods[..m + 1][..m] == mods[..m];
    AppendAssoc(cells, ModulesCells(b, branchId, mods[..m], branchId + 2),
                ModuleCells(b, branchId, mods[m], branchId + 2 + ModulesSize(mods[..m]), b.y + ModulesSpan(mods[..m])));
  }

  lemma ModulesLoopStep(cells: seq<Cell>, b: BranchConfig, branchId: nat, mods: seq<Module>, m: nat,
                        before: seq<Cell>, y: int, after: seq<Cell>)
    requires m < |mods| && |cells| == branchId + 2
    requires before == cells + ModulesCells(b, branchId, mods[..m], branchId + 2)
    requires y == b.y + ModulesSpan(mods[..m])
    requires after == before + ModuleCells(b, branchId, mods[m], |before|, y)
    ensures after == cells + ModulesCells(b, branchId, mods[..m + 1], branchId + 2)
    ensures ModulesSpan(mods[..m + 1]) == ModulesSpan(mods[..m]) + if 60 * |mods[m].items| > 80 then 60 * |mods[m].items| else 80
  {
    assert mods[..m + 1][..m] == mods[..m];
    assert |before| == branchId + 2 + ModulesSize(mods[..m]);
    ModulesAppendOne(cells, b, branchId, mods, m);
  }

  lemma AppendAssoc(a: seq<Cell>, b: seq<Cell>, c: seq<Cell>)
    ensures (a + b) + c == a + (b + c)
  {
  }

  /** A branch node with id `id`, its edge from the root, then its modules. */
  function BranchCells(b: BranchConfig, mods: seq<Module>, id: nat): (r: seq<Cell>)
    ensures |r| == 2 + ModulesSize(mods)
  {
    [Vertex(id, b.name, 1, b.fill, b.stroke, b.x, b.y, 120, 60), Edge(id + 1, 2, id, 2)]
    + ModulesCells(b, id, mods, id + 2)
  }

  /** Number of cells the branches of `configs` present in `data` produce. */
  function BranchesSize(data: MindmapData, configs: seq<BranchConfig>): nat
  {
    if configs == [] then 0
    else
      var b := configs[|configs| - 1];
      BranchesSize(data, configs[..|configs| - 1]) + if b.key in data then 2 + ModulesSize(data[b.key]) else 0
  }

  /** The cells of the branches of `configs` that `data` has, in the order of
      `configs`, the first with id `firstId`; a missing key contributes nothing. */
  function BranchesCells(data: MindmapData, configs: seq<BranchConfig>, firstId: nat): (r: seq<Cell>)
    ensures |r| == BranchesSize(data, configs)
  {
    if configs == [] then []
    else
      var init := configs[..|configs| - 1];
      var b := configs[|configs| - 1];
      BranchesCells(data, init, firstId)
      + if b.key in data then BranchCells(b, data[b.key], firstId + BranchesSize(data, init)) else []
  }

  /** The cells of the mind map for `data`. */
  function MindmapCells(data: MindmapData): seq<Cell>
  {
    Header + BranchesCells(data, Branches, 3)
  }

  /** Vertex `k` is a branch, module or item node immediately followed by the edge
      into it from its parent: an earlier vertex one level up; a module or item
      node sits 200 to the right of its parent. */
  predicate LinkedToParent(cells: seq<Cell>, k: nat)
    requires k < |cells|
  {
    k + 1 < |cells| && cells[k + 1].Edge? && cells[k + 1].target == k
    && var p := cells[k + 1].source;
       p < k && cells[p].Vertex? && cells[k].Vertex? && cells[p].level + 1 == cells[k].level
       && (cells[k].level >= 2 ==> cells[k].x == cells[p].x + 200)
  }

  /** Every non-root vertex is linked to its parent. */
  predicate WellLinked(cells: seq<Cell>)
  {
    forall k :: 0 <= k < |cells| && cells[k].Vertex? && cells[k].level > 0 ==> LinkedToParent(cells, k)
  }

  lemma AppendLinked(cells: seq<Cell>, v: Cell, e: Cell)
    requires WellLinked(cells)
    requires v.Vertex? && v.level > 0 && e.Edge? && e.target == |cells| && e.source < |cells|
    requires cells[e.source].Vertex? && cells[e.source].level + 1 == v.level
    requires v.level >= 2 ==> v.x == cells[e.source].x + 200
    ensures WellLinked(cells + [v] + [e])
  {
    var all := cells + [v] + [e];
    forall k | 0 <= k < |all| && all[k].Vertex? && all[k].level > 0
      ensures LinkedToParent(all, k)
    {
      if k < |cells| {
        assert LinkedToParent(cells, k);
      }
    }
  }

  /** The item loop of `create_mindmap_xml`: appends each item's node and its edge
      from the module node `moduleNodeId`, 60 apart from the module's height down. */
  method AddItems(cells: seq<Cell>, config: BranchConfig, moduleNodeId: nat, moduleX: int, moduleY: int,
                  items: seq<string>)
    returns (out: seq<Cell>)
    requires WellLinked(cells) && |cells| == moduleNodeId + 2
    requires cells[moduleNodeId].Vertex? && cells[moduleNodeId].level == 2 && cells[moduleNodeId].x == moduleX
    ensures out == cells + ItemCells(config, moduleNodeId, moduleX, moduleY, items, moduleNodeId + 2)
    ensures WellLinked(out)
  {
    out := cells;
    var cellId := |cells|;
    var itemYOffset := 0;
    for j := 0 to |items|
      invariant cellId == |out|
      invariant itemYOffset == 60 * j
      invariant out == cells + ItemCells(config, moduleNodeId, moduleX, moduleY, items[..j], moduleNodeId + 2)
      invariant WellLinked(out)
    {
      var itemX := moduleX + 200;
      var itemY := moduleY + itemYOffset;
      var itemNode := Vertex(cellId, items[j], 3, config.fill, config.stroke, itemX, itemY, 200, 40);
      var itemNodeId := cellId;
      cellId := cellId + 1;
      var edge := Edge(cellId, moduleNodeId, itemNodeId, 1);
      cellId := cellId + 1;
      AppendLinked(out, itemNode, edge);
      out := out + [itemNode] + [edge];
      assert items[..j + 1][..j] == items[..j];
      itemYOffset := itemYOffset + 60;
    }
    assert items[..|items|] == items;
  }

  /** One round of the module loop: the module node at height `moduleY`, its edge
      from the branch node `branchNodeId`, then its items. */
  method AddModule(cells: seq<Cell>, config: BranchConfig, branchNodeId: nat, m: Module, moduleY: int)
    returns (out: seq<Cell>)
    requires WellLinked(cells) && branchNodeId < |cells|
    requires cells[branchNodeId].Vertex? && cells[branchNodeId].level == 1 && cells[branchNodeId].x == config.x
    ensures out == cells + ModuleCells(config, branchNodeId, m, |cells|, moduleY)
    ensures WellLinked(out)
  {
    var cellId := |cells|;
    var moduleX := config.x + 200;
    var moduleNode := Vertex(cellId, m.name, 2, config.fill, config.stroke, moduleX, moduleY, 120, 50);
    var moduleNodeId := cellId;
    cellId := cellId + 1;
    var edge := Edge(cellId, branchNodeId, moduleNodeId, 1);
    cellId := cellId + 1;
    AppendLinked(cells, moduleNode, edge);
    out := cells + [moduleNode] + [edge];
    out := AddItems(out, config, moduleNodeId, moduleX, moduleY, m.items);
  }

  /** The module loop of `create_mindmap_xml`: each module in turn, the height
      advancing by `max(len(items) * 60, 80)`. */
  method AddModules(cells: seq<Cell>, config: BranchConfig, branchNodeId: nat, modules: seq<Module>)
    returns (out: seq<Cell>)
    requires WellLinked(cells) && |cells| == branchNodeId + 2
    requires cells[branchNodeId].Vertex? && cells[branchNodeId].level == 1 && cells[branchNodeId].x == config.x
    ensures out == cells + ModulesCells(config, branchNodeId, modules, branchNodeId + 2)
    ensures WellLinked(out)
  {
    out := cells;
    var moduleYOffset := 0;
    for m := 0 to |modules|
      invariant moduleYOffset == ModulesSpan(modules[..m])
      invariant out == cells + ModulesCells(config, branchNodeId, modules[..m], branchNodeId + 2)
      invariant WellLinked(out)
    {
      ghost var before := out;
      assert before[branchNodeId] == cells[branchNodeId];
      var moduleY := config.y + moduleYOffset;
      out := AddModule(out, config, branchNodeId, modules[m], moduleY);
      ModulesLoopStep(cells, config, branchNodeId, modules, m, before, moduleY, out);
      var items := modules[m].items;
      moduleYOffset := moduleYOffset + if |items| * 60 > 80 then |items| * 60 else 80;
    }
    assert modules[..|modules|] == modules;
  }

  /** One round of the branch loop for a present key: the branch node, its edge
      from the root node (id 2), then its modules. */
  method AddBranch(cells: seq<Cell>, config: BranchConfig, modules: seq<Module>) returns (out: seq<Cell>)
    requires WellLinked(cells) && |cells| >= 3 && cells[2].Vertex? && cells[2].level == 0
    ensures out == cells + BranchCells(config, modules, |cells|)
    ensures WellLinked(out)
  {
    var cellId := |cells|;
    var branchNode := Vertex(cellId, config.name, 1, config.fill, config.stroke, config.x, config.y, 120, 60);
    var branchNodeId := cellId;
    cellId := cellId + 1;
    var edge := Edge(cellId, 2, branchNodeId, 2);
    AppendLinked(cells, branchNode, edge);
    out := cells + [branchNode] + [edge];
    out := AddModules(out, config, branchNodeId, modules);
  }

  lemma BranchesLoopStep(data: MindmapData, configs: seq<BranchConfig>, i: nat, before: seq<Cell>, after: seq<Cell>)
    requires i < |configs|
    requires before == Header + BranchesCells(data, configs[..i], 3)
    requires configs[i].key in data ==> after == before + BranchCells(configs[i], data[configs[i].key], |before|)
    requires configs[i].key !in data ==> after == before
    ensures after == Header + BranchesCells(data, configs[..i + 1], 3)
  {
    assert configs[..i + 1][..i] == configs[..i];
    if configs[i].key in data {
      assert |before| == 3 + BranchesSize(data, configs[..i]);
      BranchesAppendOne(data, configs, i);
    }
  }

  lemma BranchesAppendOne(data: MindmapData, configs: seq<BranchConfig>, i: nat)
    requires i < |configs| && configs[i].key in data
    ensures (Header + BranchesCells(data, configs[..i], 3))
            + BranchCells(configs[i], data[configs[i].key], 3 + BranchesSize(data, configs[..i]))
            == Header + BranchesCells(data, configs[..i + 1], 3)
  {
    assert configs[..i + 1][..i] == configs[..i];
    AppendAssoc(Header, BranchesCells(data, configs[..i], 3),
                BranchCells(configs[i], data[configs[i].key], 3 + BranchesSize(data, configs[..i])));
  }

  /** `create_mindmap_xml`: the two layer cells and the root node, then for each
      branch present in `data`, in the fixed order, its node, its edge from the
      root and its modules; every cell takes the next id. */
  method CreateMindmap(data: MindmapData) returns (cells: seq<Cell>)
    ensures cells == MindmapCells(data)
    ensures WellLinked(cells)
  {
    cells := [Layer(0, None), Layer(1, Some(0))];
    var cellId := 2;
    cells := cells + [Vertex(cellId, RootLabel, 0, "#f5f5f5", "#666666", CenterX - 100, CenterY - 50, 200, 100)];
    for i := 0 to |Branches|
      invariant cells == Header + BranchesCells(data, Branches[..i], 3)
      invariant WellLinked(cells)
    {
      ghost var before := cells;
      var config := Branches[i];
      if config.key in data {
        cells := AddBranch(cells, config, data[config.key]);
      }
      BranchesLoopStep(data, Branches, i, before, cells);
    }
    assert Branches[..|Branches|] == Branches;
  }

  /** The cells of `r` carry the ids `first`, `first + 1`, … */
  predicate NumberedFrom(r: seq<Cell>, first: nat)
  {
    forall k :: 0 <= k < |r| ==> r[k].id == first + k
  }

  lemma NumberedConcat(a: seq<Cell>, b: seq<Cell>, first: nat)
    requires NumberedFrom(a, first) && NumberedFrom(b, first + |a|)
    ensures NumberedFrom(a + b, first)
  {
    forall k | 0 <= k < |a + b|
      ensures (a + b)[k].id == first + k
    {
      if k >= |a| {
        assert (a + b)[k] == b[k - |a|];
      }
    }
  }

  lemma {:induction false} ItemsNumbered(b: BranchConfig, moduleId: nat, moduleX: int, moduleY: int,
                                         items: seq<string>, firstId: nat)
    ensures NumberedFrom(ItemCells(b, moduleId, moduleX, moduleY, items, firstId), firstId)
  {
    if items != [] {
      var n := |items| - 1;
      ItemsNumbered(b, moduleId, moduleX, moduleY, items[..n], firstId);
      var init := ItemCells(b, moduleId, moduleX, moduleY, items[..n], firstId);
      var last := [Vertex(firstId + 2 * n, items[n], 3, b.fill, b.stroke, moduleX + 200, moduleY + 60 * n, 200, 40),
                   Edge(firstId + 2 * n + 1, moduleId, firstId + 2 * n, 1)];
      NumberedConcat(init, last, firstId);
    }
  }

  /** Item `j` of a module becomes a node at `2 * j` and the edge into it from the
      module node at `2 * j + 1`; the node sits 200 right of the module and
      `60 * j` below it. */
  lemma {:induction false} ItemLayout(b: BranchConfig, moduleId: nat, moduleX: int, moduleY: int,
                                      items: seq<string>, firstId: nat)
    ensures var r := ItemCells(b, moduleId, moduleX, moduleY, items, firstId);
            forall j :: 0 <= j < |items| ==>
                 r[2 * j] == Vertex(firstId + 2 * j, items[j], 3, b.fill, b.stroke, moduleX + 200, moduleY + 60 * j, 200, 40)
                 && r[2 * j + 1] == Edge(firstId + 2 * j + 1, moduleId, firstId + 2 * j, 1)
  {
    if items != [] {
      var n := |items| - 1;
      ItemLayout(b, moduleId, moduleX, moduleY, items[..n], firstId);
      var r := ItemCells(b, moduleId, moduleX, moduleY, items, firstId);
      forall j | 0 <= j < |items|
        ensures r[2 * j] == Vertex(firstId + 2 * j, items[j], 3, b.fill, b.stroke, moduleX + 200, moduleY + 60 * j, 200, 40)
        ensures r[2 * j + 1] == Edge(firstId + 2 * j + 1, moduleId, firstId + 2 * j, 1)
      {
        if j < n {
          assert items[..n][j] == items[j];
        }
      }
    }
  }

  lemma {:induction false} ModulesNumbered(b: BranchConfig, branchId: nat, mods: seq<Module>, firstId: nat)
    ensures NumberedFrom(ModulesCells(b, branchId, mods, firstId), firstId)
  {
    if mods != [] {
      var init := mods[..|mods| - 1];
      var m := mods[|mods| - 1];
      var id := firstId + ModulesSize(init);
      ModulesNumbered(b, branchId, init, firstId);
      ItemsNumbered(b, id, b.x + 200, b.y + ModulesSpan(init), m.items, id + 2);
      var items := ItemCells(b, id, b.x + 200, b.y + ModulesSpan(init), m.items, id + 2);
      var head := [Vertex(id, m.name, 2, b.fill, b.stroke, b.x + 200, b.y + ModulesSpan(init), 120, 50), Edge(id + 1, branchId, id, 1)];
      NumberedConcat(head, items, id);
      assert ModuleCells(b, branchId, m, id, b.y + ModulesSpan(init)) == head + items;
      NumberedConcat(ModulesCells(b, branchId, init, firstId), head + items, firstId);
      assert ModulesCells(b, branchId, mods, firstId) == ModulesCells(b, branchId, init, firstId) + (head + items);
    }
  }

  lemma {:induction false} BranchesNumbered(data: MindmapData, configs: seq<BranchConfig>, firstId: nat)
    ensures NumberedFrom(BranchesCells(data, configs, firstId), firstId)
  {
    if configs != [] {
      BranchesNumbered(data, configs[..|configs| - 1], firstId);
      BranchesNumberedStep(data, configs, firstId);
    }
  }

  lemma {:induction false} BranchesNumberedStep(data: MindmapData, configs: seq<BranchConfig>, firstId: nat)
    requires configs != [] && NumberedFrom(BranchesCells(data, configs[..|configs| - 1], firstId), firstId)
    ensures NumberedFrom(BranchesCells(data, configs, firstId), firstId)
  {
    var init := configs[..|configs| - 1];
    var b := configs[|configs| - 1];
    if b.key in data {
      var id := firstId + BranchesSize(data, init);
      BranchNumbered(b, data[b.key], id);
      PresentBranchLast(data, configs, firstId);
      NumberedAppend(BranchesCells(data, configs, firstId), BranchesCells(data, init, firstId),
                     BranchCells(b, data[b.key], id), firstId);
    } else {
      AbsentBranchLast(data, configs, firstId);
    }
  }

  lemma NumberedAppend(whole: seq<Cell>, a: seq<Cell>, x: seq<Cell>, first: nat)
    requires whole == a + x && NumberedFrom(a, first) && NumberedFrom(x, first + |a|)
    ensures NumberedFrom(whole, first)
  {
    NumberedConcat(a, x, first);
  }

  lemma BranchNumbered(b: BranchConfig, mods: seq<Module>, id: nat)
    ensures NumberedFrom(BranchCells(b, mods, id), id)
  {
    var head := [Vertex(id, b.name, 1, b.fill, b.stroke, b.x, b.y, 120, 60), Edge(id + 1, 2, id, 2)];
    ModulesNumbered(b, id, mods, id + 2);
    NumberedConcat(head, ModulesCells(b, id, mods, id + 2), id);
  }

  /** Ids are unique and consecutive: cell `k` has id `k`, starting with the layer
      cells 0 and 1 and the root node 2. */
  lemma CellIdsConsecutive(data: MindmapData)
    ensures forall k :: 0 <= k < |MindmapCells(data)| ==> MindmapCells(data)[k].id == k
    ensures MindmapCells(data)[..3] == Header
  {
    BranchesNumbered(data, Branches, 3);
    NumberedConcat(Header, BranchesCells(data, Branches, 3), 0);
  }

  lemma {:induction false} BranchesPrefix(data: MindmapData, configs: seq<BranchConfig>, k: nat, firstId: nat)
    requires k <= |configs|
    ensures var r := BranchesCells(data, configs, firstId);
            var p := BranchesCells(data, configs[..k], firstId);
            |p| <= |r| && r[..|p|] == p
  {
    if k < |configs| {
      var init := configs[..|configs| - 1];
      BranchesPrefix(data, init, k, firstId);
      assert init[..k] == configs[..k];
    } else {
      assert configs[..k] == configs;
    }
  }

  lemma PresentBranchAt(data: MindmapData, configs: seq<BranchConfig>, i: nat, firstId: nat)
    requires i < |configs| && configs[i].key in data
    ensures BranchesCells(data, configs[..i + 1], firstId)
            == BranchesCells(data, configs[..i], firstId)
               + BranchCells(configs[i], data[configs[i].key], firstId + BranchesSize(data, configs[..i]))
  {
    var c := configs[..i + 1];
    assert c[..|c| - 1] == configs[..i];
    assert c[|c| - 1] == configs[i];
    PresentBranchLast(data, c, firstId);
  }

  lemma BranchCellsHead(b: BranchConfig, mods: seq<Module>, id: nat)
    ensures var r := BranchCells(b, mods, id);
            2 <= |r| && r[0] == Vertex(id, b.name, 1, b.fill, b.stroke, b.x, b.y, 120, 60) && r[1] == Edge(id + 1, 2, id, 2)
  {
  }

  lemma PresentBranchLast(data: MindmapData, configs: seq<BranchConfig>, firstId: nat)
    requires configs != [] && configs[|configs| - 1].key in data
    ensures var init := configs[..|configs| - 1];
            var b := configs[|configs| - 1];
            BranchesCells(data, configs, firstId)
            == BranchesCells(data, init, firstId) + BranchCells(b, data[b.key], firstId + BranchesSize(data, init))
  {
  }

  lemma AbsentBranchLast(data: MindmapData, configs: seq<BranchConfig>, firstId: nat)
    requires configs != [] && configs[|configs| - 1].key !in data
    ensures BranchesCells(data, configs, firstId) == BranchesCells(data, configs[..|configs| - 1], firstId)
  {
    var init := configs[..|configs| - 1];
    assert BranchesCells(data, configs, firstId) == BranchesCells(data, init, firstId) + [];
  }

  /** Branches appear in the fixed order logging, monitoring, alerting: a present
      branch's node comes right after the cells of the present branches before it,
      followed by the edge from the root; an absent one takes no cells. */
  lemma BranchNodeAt(data: MindmapData, i: nat)
    requires i < |Branches| && Branches[i].key in data
    ensures var cells := MindmapCells(data);
            var b := Branches[i];
            var at := 3 + BranchesSize(data, Branches[..i]);
            at + 1 < |cells|
            && cells[at] == Vertex(at, b.name, 1, b.fill, b.stroke, b.x, b.y, 120, 60)
            && cells[at + 1] == Edge(at + 1, 2, at, 2)
  {
    var at := 3 + BranchesSize(data, Branches[..i]);
    BranchCellsInDiagram(data, i);
    BranchCellsHead(Branches[i], data[Branches[i].key], at);
    SliceHead(MindmapCells(data), at, BranchCells(Branches[i], data[Branches[i].key], at));
  }

  /** The first two cells of a piece found in `r` at `at`. */
  lemma SliceHead(r: seq<Cell>, at: nat, x: seq<Cell>)
    requires 2 <= |x| && at + |x| <= |r| && r[at..at + |x|] == x
    ensures r[at] == x[0] && r[at + 1] == x[1]
  {
    assert r[at..at + |x|][0] == r[at] && r[at..at + |x|][1] == r[at + 1];
  }

  /** The two inputs agree on the keys of `configs`. */
  predicate SameBranches(d1: MindmapData, d2: MindmapData, configs: seq<BranchConfig>)
  {
    forall i :: 0 <= i < |configs| ==>
      (configs[i].key in d1 <==> configs[i].key in d2)
      && (configs[i].key in d1 ==> d1[configs[i].key] == d2[configs[i].key])
  }

  lemma SameBranchesInit(d1: MindmapData, d2: MindmapData, configs: seq<BranchConfig>)
    requires configs != [] && SameBranches(d1, d2, configs)
    ensures SameBranches(d1, d2, configs[..|configs| - 1])
    ensures var key := configs[|configs| - 1].key;
            (key in d1 <==> key in d2) && (key in d1 ==> d1[key] == d2[key])
  {
    var init := configs[..|configs| - 1];
    forall i | 0 <= i < |init|
      ensures (init[i].key in d1 <==> init[i].key in d2) && (init[i].key in d1 ==> d1[init[i].key] == d2[init[i].key])
    {
      assert init[i] == configs[i];
    }
  }

  lemma {:induction false} BranchesSizeAgree(d1: MindmapData, d2: MindmapData, configs: seq<BranchConfig>)
    requires SameBranches(d1, d2, configs)
    ensures BranchesSize(d1, configs) == BranchesSize(d2, configs)
  {
    if configs != [] {
      SameBranchesInit(d1, d2, configs);
      BranchesSizeAgree(d1, d2, configs[..|configs| - 1]);
    }
  }

  lemma {:induction false} BranchesAgree(d1: MindmapData, d2: MindmapData, configs: seq<BranchConfig>, firstId: nat)
    requires SameBranches(d1, d2, configs)
    ensures BranchesCells(d1, configs, firstId) == BranchesCells(d2, configs, firstId)
  {
    if configs != [] {
      var init := configs[..|configs| - 1];
      var b := configs[|configs| - 1];
      SameBranchesInit(d1, d2, configs);
      BranchesAgree(d1, d2, init, firstId);
      BranchesSizeAgree(d1, d2, init);
    }
  }

  /** Keys other than logging, monitoring and alerting are ignored. */
  lemma OtherKeysIgnored(d1: MindmapData, d2: MindmapData)
    requires forall key :: key in ["logging", "monitoring", "alerting"] ==>
               (key in d1 <==> key in d2) && (key in d1 ==> d1[key] == d2[key])
    ensures MindmapCells(d1) == MindmapCells(d2)
  {
    forall i | 0 <= i < |Branches|
      ensures (Branches[i].key in d1 <==> Branches[i].key in d2)
              && (Branches[i].key in d1 ==> d1[Branches[i].key] == d2[Branches[i].key])
    {
      assert Branches[i].key in ["logging", "monitoring", "alerting"];
    }
    assert SameBranches(d1, d2, Branches);
    BranchesAgree(d1, d2, Branches, 3);
  }

  /** Number of items of a branch's modules: what `main` reports for it. */
  function ItemTotal(mods: seq<Module>): nat
  {
    if mods == [] then 0 else ItemTotal(mods[..|mods| - 1]) + |mods[|mods| - 1].items|
  }

  /** `sum(len(items) for items in data.get(key, {}).values())`. */
  function ItemCount(data: MindmapData, key: string): nat
  {
    if key in data then ItemTotal(data[key]) else 0
  }

  /** Number of nodes (branch, modules) a key contributes besides its items. */
  function NodeCount(data: MindmapData, key: string): nat
  {
    if key in data then 1 + |data[key]| else 0
  }

  lemma {:induction false} ModulesSizeCounts(mods: seq<Module>)
    ensures ModulesSize(mods) == 2 * |mods| + 2 * ItemTotal(mods)
  {
    if mods != [] {
      ModulesSizeCounts(mods[..|mods| - 1]);
    }
  }

  /** Every node but the root brings exactly one edge: 3 + 2 per branch, module
      and item of the logging, monitoring and alerting keys; other keys add
      nothing. */
  lemma CellCount(data: MindmapData)
    ensures |MindmapCells(data)|
            == 3 + 2 * (NodeCount(data, "logging") + NodeCount(data, "monitoring") + NodeCount(data, "alerting"))
                 + 2 * (ItemCount(data, "logging") + ItemCount(data, "monitoring") + ItemCount(data, "alerting"))
  {
    assert Branches[..0] == [] && Branches[..1][..0] == [] && Branches[..2][..1] == Branches[..1]
           && Branches[..3][..2] == Branches[..2] && Branches[..3] == Branches;
    forall key | key in data
      ensures ModulesSize(data[key]) == 2 * |data[key]| + 2 * ItemTotal(data[key])
    {
      ModulesSizeCounts(data[key]);
    }
    assert BranchesSize(data, Branches[..1]) == NodeCount(data, "logging") * 2 + ItemCount(data, "logging") * 2;
    assert BranchesSize(data, Branches[..2]) == BranchesSize(data, Branches[..1])
                                                + NodeCount(data, "monitoring") * 2 + ItemCount(data, "monitoring") * 2;
  }

  /** The cells of modules `0..j` of a branch begin its module cells and end with
      module `j`'s own cells, whose first id follows the cells of the modules
      before it and whose height is where those modules advanced to. */
  lemma ModuleAt(b: BranchConfig, branchId: nat, mods: seq<Module>, firstId: nat, j: nat)
    requires j < |mods|
    ensures var r := ModulesCells(b, branchId, mods, firstId);
            var p := ModulesCells(b, branchId, mods[..j + 1], firstId);
            |p| <= |r| && r[..|p|] == p
            && p == ModulesCells(b, branchId, mods[..j], firstId)
                    + ModuleCells(b, branchId, mods[j], firstId + ModulesSize(mods[..j]), b.y + ModulesSpan(mods[..j]))
  {
    ModuleAfterPrefix(b, branchId, mods, j, firstId);
    ModulesPrefix(b, branchId, mods, j + 1, firstId);
  }

  lemma ModuleAfterPrefix(b: BranchConfig, branchId: nat, mods: seq<Module>, j: nat, firstId: nat)
    requires j < |mods|
    ensures ModulesCells(b, branchId, mods[..j + 1], firstId)
            == ModulesCells(b, branchId, mods[..j], firstId)
               + ModuleCells(b, branchId, mods[j], firstId + ModulesSize(mods[..j]), b.y + ModulesSpan(mods[..j]))
  {
    var c := mods[..j + 1];
    assert c[..|c| - 1] == mods[..j];
    assert c[|c| - 1] == mods[j];
  }

  lemma {:induction false} ModulesPrefix(b: BranchConfig, branchId: nat, mods: seq<Module>, k: nat, firstId: nat)
    requires k <= |mods|
    ensures var r := ModulesCells(b, branchId, mods, firstId);
            var p := ModulesCells(b, branchId, mods[..k], firstId);
            |p| <= |r| && r[..|p|] == p
  {
    if k < |mods| {
      var init := mods[..|mods| - 1];
      ModulesPrefix(b, branchId, init, k, firstId);
      assert init[..k] == mods[..k];
    } else {
      assert mods[..k] == mods;
    }
  }

  /** Consecutive modules of a branch are at least 80 apart, and every item of a
      module lies above the next module: item `k` at `60 * k` below its module,
      the next module `max(60 * len(items), 80)` below it. */
  lemma ModuleSpacing(mods: seq<Module>, j: nat)
    requires j + 1 < |mods|
    ensures ModulesSpan(mods[..j + 1]) >= ModulesSpan(mods[..j]) + 80
    ensures forall k :: 0 <= k < |mods[j].items| ==> ModulesSpan(mods[..j]) + 60 * k < ModulesSpan(mods[..j + 1])
  {
    assert mods[..j + 1][..j] == mods[..j];
  }

  /** `get_git_branch`: the stripped output of `git rev-parse --abbrev-ref HEAD`
      with every `/` and `\` replaced by `-`, or "default" when git fails. */
  function BranchName(gitOutput: Option<string>): (name: string)
    ensures gitOutput.None? ==> name == "default"
    ensures gitOutput.Some? ==> |name| == |Strip(gitOutput.value)|
    ensures forall i :: 0 <= i < |name| ==> name[i] != '/' && name[i] != '\\'
  {
    if gitOutput.None? then "default"
    else ReplaceChar(ReplaceChar(Strip(gitOutput.value), '/', '-'), '\\', '-')
  }

  /** Sanitising keeps every other character of the stripped output in place. */
  lemma BranchNameKeepsOthers(out: string, i: nat)
    requires i < |Strip(out)|
    ensures var c := Strip(out)[i];
            BranchName(Some(out))[i] == if c == '/' || c == '\\' then '-' else c
  {
  }

  /** The output file name: `<branch>-<output>` when an output is given (a
      non-empty one), otherwise `<branch>-observability-design.drawio`. */
  function OutputName(branch: string, output: Option<string>): (name: string)
    ensures StartsWith(name, branch + "-")
    ensures name[|branch| + 1..] == if output.Some? && output.value != "" then output.value else "observability-design.drawio"
  {
    var rest := if output.Some? && output.value != "" then output.value else "observability-design.drawio";
    assert (branch + "-" + rest)[..|branch| + 1] == branch + "-";
    branch + "-" + rest
  }

  /** What `main` reports after writing the diagram: the file name and the item
      counts of the logging, monitoring and alerting branches. */
  datatype Summary = Summary(output: string, logItems: nat, monitoringItems: nat, alertingItems: nat)

  function Summarize(gitOutput: Option<string>, output: Option<string>, data: MindmapData): (r: Summary)
    ensures "logging" !in data ==> r.logItems == 0
    ensures "monitoring" !in data ==> r.monitoringItems == 0
    ensures "alerting" !in data ==> r.alertingItems == 0
  {
    Summary(OutputName(BranchName(gitOutput), output), ItemCount(data, "logging"),
            ItemCount(data, "monitoring"), ItemCount(data, "alerting"))
  }

  /** Number of item nodes (level-3 vertices) among `cells`. */
  function ItemNodes(cells: seq<Cell>): nat
  {
    if cells == [] then 0
    else
      var c := cells[|cells| - 1];
      ItemNodes(cells[..|cells| - 1]) + if IsItemNode(c) then 1 else 0
  }

  lemma {:induction false} ItemNodesAppend(a: seq<Cell>, b: seq<Cell>)
    ensures ItemNodes(a + b) == ItemNodes(a) + ItemNodes(b)
  {
    if b == [] {
      assert a + b == a;
    } else {
      assert (a + b)[..|a + b| - 1] == a + b[..|b| - 1];
      ItemNodesAppend(a, b[..|b| - 1]);
    }
  }

  lemma ItemNodesSplit(whole: seq<Cell>, a: seq<Cell>, b: seq<Cell>, n: nat)
    requires whole == a + b && ItemNodes(b) == n
    ensures ItemNodes(whole) == ItemNodes(a) + n
  {
    ItemNodesAppend(a, b);
  }

  /** Whether a cell is an item node. */
  predicate IsItemNode(c: Cell)
  {
    c.Vertex? && c.level == 3
  }

  lemma ItemNodesPair(v: Cell, e: Cell)
    ensures ItemNodes([v, e]) == (if IsItemNode(v) then 1 else 0) + (if IsItemNode(e) then 1 else 0)
  {
    assert [v, e][..1] == [v];
    assert [v][..0] == [];
    assert ItemNodes([v]) == ItemNodes([]) + (if IsItemNode(v) then 1 else 0);
    assert ItemNodes([v, e]) == ItemNodes([v]) + (if IsItemNode(e) then 1 else 0);
  }

  lemma HeaderHasNoItems()
    ensures ItemNodes(Header) == 0
  {
    var h := Header;
    assert h == [h[0], h[1]] + [h[2]];
    ItemNodesAppend([h[0], h[1]], [h[2]]);
    ItemNodesPair(h[0], h[1]);
    assert [h[2]][..0] == [];
  }

  /** Each item of a module becomes exactly one item node. */
  lemma {:induction false} ItemCellsItemNodes(b: BranchConfig, moduleId: nat, moduleX: int, moduleY: int,
                                              items: seq<string>, firstId: nat)
    ensures ItemNodes(ItemCells(b, moduleId, moduleX, moduleY, items, firstId)) == |items|
  {
    if items != [] {
      var n := |items| - 1;
      var v := Vertex(firstId + 2 * n, items[n], 3, b.fill, b.stroke, moduleX + 200, moduleY + 60 * n, 200, 40);
      var e := Edge(firstId + 2 * n + 1, moduleId, firstId + 2 * n, 1);
      ItemCellsItemNodes(b, moduleId, moduleX, moduleY, items[..n], firstId);
      ItemNodesAppend(ItemCells(b, moduleId, moduleX, moduleY, items[..n], firstId), [v, e]);
      ItemNodesPair(v, e);
    }
  }

  /** A module brings one item node per item and none for itself. */
  lemma ModuleCellsItemNodes(b: BranchConfig, branchId: nat, m: Module, id: nat, y: int)
    ensures ItemNodes(ModuleCells(b, branchId, m, id, y)) == |m.items|
  {
    var v := Vertex(id, m.name, 2, b.fill, b.stroke, b.x + 200, y, 120, 50);
    var e := Edge(id + 1, branchId, id, 1);
    ItemNodesAppend([v, e], ItemCells(b, id, b.x + 200, y, m.items, id + 2));
    ItemNodesPair(v, e);
    ItemCellsItemNodes(b, id, b.x + 200, y, m.items, id + 2);
  }

  /** The modules of a branch bring one item node per item. */
  lemma {:induction false} ModulesItemNodes(b: BranchConfig, branchId: nat, mods: seq<Module>, firstId: nat)
    ensures ItemNodes(ModulesCells(b, branchId, mods, firstId)) == ItemTotal(mods)
  {
    if mods != [] {
      ModulesItemNodes(b, branchId, mods[..|mods| - 1], firstId);
      var x := LastModulePiece(b, branchId, mods, firstId);
      ItemNodesSplit(ModulesCells(b, branchId, mods, firstId), ModulesCells(b, branchId, mods[..|mods| - 1], firstId),
                     x, |mods[|mods| - 1].items|);
    }
  }

  /** The cells the last module adds, and their item nodes. */
  lemma {:induction false} LastModulePiece(b: BranchConfig, branchId: nat, mods: seq<Module>, firstId: nat)
    returns (x: seq<Cell>)
    requires mods != []
    ensures ModulesCells(b, branchId, mods, firstId) == ModulesCells(b, branchId, mods[..|mods| - 1], firstId) + x
    ensures ItemNodes(x) == |mods[|mods| - 1].items|
  {
    var init := mods[..|mods| - 1];
    x := ModuleCells(b, branchId, mods[|mods| - 1], firstId + ModulesSize(init), b.y + ModulesSpan(init));
    ModuleCellsItemNodes(b, branchId, mods[|mods| - 1], firstId + ModulesSize(init), b.y + ModulesSpan(init));
  }

  /** A branch's cells hold exactly as many item nodes as its modules have items. */
  lemma BranchItemNodes(b: BranchConfig, mods: seq<Module>, id: nat)
    ensures ItemNodes(BranchCells(b, mods, id)) == ItemTotal(mods)
  {
    var v := Vertex(id, b.name, 1, b.fill, b.stroke, b.x, b.y, 120, 60);
    var e := Edge(id + 1, 2, id, 2);
    ItemNodesAppend([v, e], ModulesCells(b, id, mods, id + 2));
    ItemNodesPair(v, e);
    ModulesItemNodes(b, id, mods, id + 2);
  }

  /** Items of the branches of `configs` that `data` has. */
  function BranchesItems(data: MindmapData, configs: seq<BranchConfig>): nat
  {
    if configs == [] then 0
    else BranchesItems(data, configs[..|configs| - 1]) + ItemCount(data, configs[|configs| - 1].key)
  }

  lemma {:induction false} BranchesItemNodes(data: MindmapData, configs: seq<BranchConfig>, firstId: nat)
    ensures ItemNodes(BranchesCells(data, configs, firstId)) == BranchesItems(data, configs)
  {
    if configs != [] {
      BranchesItemNodes(data, configs[..|configs| - 1], firstId);
      BranchesItemsStep(data, configs, firstId);
    }
  }

  lemma {:induction false} BranchesItemsStep(data: MindmapData, configs: seq<BranchConfig>, firstId: nat)
    requires configs != []
    requires var init := configs[..|configs| - 1];
             ItemNodes(BranchesCells(data, init, firstId)) == BranchesItems(data, init)
    ensures ItemNodes(BranchesCells(data, configs, firstId)) == BranchesItems(data, configs)
  {
    if configs[|configs| - 1].key in data {
      PresentBranchItems(data, configs, firstId);
    } else {
      AbsentBranchLast(data, configs, firstId);
    }
  }

  lemma {:induction false} PresentBranchItems(data: MindmapData, configs: seq<BranchConfig>, firstId: nat)
    requires configs != [] && configs[|configs| - 1].key in data
    ensures var init := configs[..|configs| - 1];
            ItemNodes(BranchesCells(data, configs, firstId))
            == ItemNodes(BranchesCells(data, init, firstId)) + ItemTotal(data[configs[|configs| - 1].key])
  {
    var x := PresentBranchPiece(data, configs, firstId);
    ItemNodesSplit(BranchesCells(data, configs, firstId), BranchesCells(data, configs[..|configs| - 1], firstId),
                   x, ItemTotal(data[configs[|configs| - 1].key]));
  }

  /** The cells a present last branch adds, and their item nodes. */
  lemma {:induction false} PresentBranchPiece(data: MindmapData, configs: seq<BranchConfig>, firstId: nat)
    returns (x: seq<Cell>)
    requires configs != [] && configs[|configs| - 1].key in data
    ensures BranchesCells(data, configs, firstId) == BranchesCells(data, configs[..|configs| - 1], firstId) + x
    ensures ItemNodes(x) == ItemTotal(data[configs[|configs| - 1].key])
  {
    var init := configs[..|configs| - 1];
    var b := configs[|configs| - 1];
    x := BranchPiece(b, data[b.key], firstId + BranchesSize(data, init));
    PresentBranchLast(data, configs, firstId);
  }

  lemma BranchPiece(b: BranchConfig, mods: seq<Module>, id: nat) returns (x: seq<Cell>)
    ensures x == BranchCells(b, mods, id) && ItemNodes(x) == ItemTotal(mods)
  {
    x := BranchCells(b, mods, id);
    BranchItemNodes(b, mods, id);
  }

  /** The piece `x` of `p == q + x`, where `p` begins `r`, stands in `r` right after `q`. */
  lemma SliceOfPrefix(r: seq<Cell>, p: seq<Cell>, q: seq<Cell>, x: seq<Cell>, at: nat)
    requires |p| <= |r| && r[..|p|] == p && p == q + x && at == |q|
    ensures at + |x| <= |r| && r[at..at + |x|] == x
  {
    assert r[at..at + |x|] == p[at..];
  }

  /** A present branch's cells stand among the branch cells right after the
      cells of the present branches before it. */
  lemma {:induction false} BranchSliceAt(data: MindmapData, configs: seq<BranchConfig>, i: nat, firstId: nat)
    requires i < |configs| && configs[i].key in data
    ensures var r := BranchesCells(data, configs, firstId);
            var at := BranchesSize(data, configs[..i]);
            var x := BranchCells(configs[i], data[configs[i].key], firstId + at);
            at + |x| <= |r| && r[at..at + |x|] == x
  {
    var at := BranchesSize(data, configs[..i]);
    var x := BranchCells(configs[i], data[configs[i].key], firstId + at);
    var p, q := BranchPrefixPieces(data, configs, i, firstId);
    SliceOfPrefix(BranchesCells(data, configs, firstId), p, q, x, at);
  }

  /** The cells of the branches up to `i`, which begin all the branch cells, are
      those before `i` followed by branch `i`'s own. */
  lemma {:induction false} BranchPrefixPieces(data: MindmapData, configs: seq<BranchConfig>, i: nat, firstId: nat)
    returns (p: seq<Cell>, q: seq<Cell>)
    requires i < |configs| && configs[i].key in data
    ensures var r := BranchesCells(data, configs, firstId);
            |p| <= |r| && r[..|p|] == p
    ensures p == q + BranchCells(configs[i], data[configs[i].key], firstId + BranchesSize(data, configs[..i]))
    ensures |q| == BranchesSize(data, configs[..i])
  {
    p := BranchesCells(data, configs[..i + 1], firstId);
    q := BranchesCells(data, configs[..i], firstId);
    BranchesPrefix(data, configs, i + 1, firstId);
    PresentBranchAt(data, configs, i, firstId);
  }

  /** Slicing after a prefix `h` is slicing the rest, shifted by `|h|`. */
  lemma ShiftSlice(h: seq<Cell>, r: seq<Cell>, a: nat, b: nat)
    requires a <= b <= |r|
    ensures (h + r)[|h| + a..|h| + b] == r[a..b]
  {
  }

  /** `BranchSliceAt` behind a prefix of `|h|` cells numbered before the branches. */
  lemma {:induction false} BranchSliceAfter(h: seq<Cell>, data: MindmapData, configs: seq<BranchConfig>, i: nat)
    requires i < |configs| && configs[i].key in data
    ensures var cells := h + BranchesCells(data, configs, |h|);
            var at := |h| + BranchesSize(data, configs[..i]);
            var x := BranchCells(configs[i], data[configs[i].key], at);
            at + |x| <= |cells| && cells[at..at + |x|] == x
  {
    var at := BranchesSize(data, configs[..i]);
    var x := BranchCells(configs[i], data[configs[i].key], |h| + at);
    BranchSliceAt(data, configs, i, |h|);
    ShiftSlice(h, BranchesCells(data, configs, |h|), at, at + |x|);
  }

  /** A present branch's cells stand in the diagram right after the cells of
      the present branches before it. */
  lemma BranchCellsInDiagram(data: MindmapData, i: nat)
    requires i < |Branches| && Branches[i].key in data
    ensures var cells := MindmapCells(data);
            var at := 3 + BranchesSize(data, Branches[..i]);
            var x := BranchCells(Branches[i], data[Branches[i].key], at);
            at + |x| <= |cells| && cells[at..at + |x|] == x
  {
    HeaderSize();
    BranchSliceAfter(Header, data, Branches, i);
  }

  lemma HeaderSize()
    ensures |Header| == 3
  {
  }

  /** The items of three branches, one after the other. */
  lemma BranchesItemsOfThree(data: MindmapData, configs: seq<BranchConfig>)
    requires |configs| == 3
    ensures BranchesItems(data, configs)
            == ItemCount(data, configs[0].key) + ItemCount(data, configs[1].key) + ItemCount(data, configs[2].key)
  {
    var c2 := configs[..2];
    var c1 := c2[..1];
    assert c1[..0] == [];
    assert BranchesItems(data, c1) == BranchesItems(data, []) + ItemCount(data, c1[0].key);
    assert BranchesItems(data, c2) == BranchesItems(data, c1) + ItemCount(data, c2[1].key);
  }

  /** The diagram holds one item node per item of the logging, monitoring and
      alerting branches. */
  lemma DiagramItemNodes(data: MindmapData)
    ensures ItemNodes(MindmapCells(data))
            == ItemCount(data, "logging") + ItemCount(data, "monitoring") + ItemCount(data, "alerting")
  {
    var r := BranchesCells(data, Branches, 3);
    BranchesItemNodes(data, Branches, 3);
    BranchesItemsOfThree(data, Branches);
    ItemNodesAppend(Header, r);
    HeaderHasNoItems();
  }

  /** The counts `main` prints are the item nodes of the diagram: their sum is
      the number of item nodes, and each present branch's count is the number
      of item nodes among that branch's own cells (`BranchCellsInDiagram` says
      where they stand); the total cell count fits them. */
  lemma SummaryCountsItems(gitOutput: Option<string>, output: Option<string>, data: MindmapData)
    ensures var r := Summarize(gitOutput, output, data);
            |MindmapCells(data)|
            == 3 + 2 * (NodeCount(data, "logging") + NodeCount(data, "monitoring") + NodeCount(data, "alerting"))
                 + 2 * (r.logItems + r.monitoringItems + r.alertingItems)
    ensures var r := Summarize(gitOutput, output, data);
            ItemNodes(MindmapCells(data)) == r.logItems + r.monitoringItems + r.alertingItems
    ensures var r := Summarize(gitOutput, output, data);
            "logging" in data ==> ItemNodes(BranchCells(Branches[0], data["logging"], 3)) == r.logItems
    ensures var r := Summarize(gitOutput, output, data);
            "monitoring" in data ==>
              ItemNodes(BranchCells(Branches[1], data["monitoring"], 3 + BranchesSize(data, Branches[..1])))
              == r.monitoringItems
    ensures var r := Summarize(gitOutput, output, data);
            "alerting" in data ==>
              ItemNodes(BranchCells(Branches[2], data["alerting"], 3 + BranchesSize(data, Branches[..2])))
              == r.alertingItems
  {
    var r := Summarize(gitOutput, output, data);
    assert r.logItems == ItemCount(data, "logging") && r.monitoringItems == ItemCount(data, "monitoring")
           && r.alertingItems == ItemCount(data, "alerting");
    CellCount(data);
    DiagramItemNodes(data);
    EachBranchItemNodes(data);
  }

  /** Each present branch's own cells hold one item node per item of its key. */
  lemma EachBranchItemNodes(data: MindmapData)
    ensures "logging" in data ==> ItemNodes(BranchCells(Branches[0], data["logging"], 3)) == ItemCount(data, "logging")
    ensures "monitoring" in data ==>
              ItemNodes(BranchCells(Branches[1], data["monitoring"], 3 + BranchesSize(data, Branches[..1])))
              == ItemCount(data, "monitoring")
    ensures "alerting" in data ==>
              ItemNodes(BranchCells(Branches[2], data["alerting"], 3 + BranchesSize(data, Branches[..2])))
              == ItemCount(data, "alerting")
  {
    if "logging" in data {
      BranchItemNodes(Branches[0], data["logging"], 3);
    }
    if "monitoring" in data {
      BranchItemNodes(Branches[1], data["monitoring"], 3 + BranchesSize(data, Branches[..1]));
    }
    if "alerting" in data {
      BranchItemNodes(Branches[2], data["alerting"], 3 + BranchesSize(data, Branches[..2]));
    }
  }
}
