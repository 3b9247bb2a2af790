/** The custom inspector of a system group observer (`EcsSystems.cs`): three
    recursive walks over the tree of system groups that draw one line per
    system, indented by nesting depth. The init and destroy walks show the
    systems that implement the matching interface; the run walk shows a
    toggle per run item and writes the toggle's answer back to the item's
    `Active` flag. The editor's immediate-mode GUI is reduced to a recorder
    of the lines it is asked to draw and an oracle for the user's clicks. */
module SystemsInspector {
  import opened Common
  import opened Ecs
  import opened Observers

  /** A line drawn by the GUI: a label, or a toggle showing its current
      value, at an indent level. */
  datatype Line =
    | Label(indent: int, text: string)
    | Toggle(indent: int, text: string, value: bool)

  /** The answer of the `k`-th toggle drawn in this frame: flipped when the
      GUI is enabled and the user clicked it, the shown value otherwise. */
  function ToggleAnswer(clicks: seq<bool>, k: nat, enabled: bool, value: bool): (r: bool)
    ensures r != value <==> enabled && k < |clicks| && clicks[k]
  {
    if enabled && k < |clicks| && clicks[k] then !value else value
  }

  /** The editor GUI state the inspector touches: `EditorGUI.indentLevel`,
      `GUI.enabled`, the lines drawn so far, and how many toggles have been
      drawn. `clicks` says which toggles the user clicks. */
  class Gui {
    var indentLevel: int
    var enabled: bool
    var lines: seq<Line>
    var toggles: nat
    const clicks: seq<bool>

    constructor (indentLevel: int, enabled: bool, clicks: seq<bool>)
      ensures this.indentLevel == indentLevel && this.enabled == enabled && this.clicks == clicks
      ensures lines == [] && toggles == 0
    {
      this.indentLevel := indentLevel;
      this.enabled := enabled;
      this.clicks := clicks;
      lines := [];
      toggles := 0;
    }

    /** `EditorGUILayout.LabelField`. */
    method LabelField(text: string)
      modifies this
      ensures lines == old(lines) + [Label(indentLevel, text)]
      ensures indentLevel == old(indentLevel) && enabled == old(enabled) && toggles == old(toggles)
    {
      lines := lines + [Label(indentLevel, text)];
    }

    /** `EditorGUILayout.ToggleLeft`: draws the toggle with its current
        value and returns the user's answer. */
    method ToggleLeft(text: string, value: bool) returns (r: bool)
      modifies this
      ensures r == ToggleAnswer(clicks, old(toggles), enabled, value)
      ensures lines == old(lines) + [Toggle(indentLevel, text, value)]
      ensures toggles == old(toggles) + 1
      ensures indentLevel == old(indentLevel) && enabled == old(enabled)
    {
      r := ToggleAnswer(clicks, toggles, enabled, value);
      lines := lines + [Toggle(indentLevel, text, value)];
      toggles := toggles + 1;
    }
  }

  /** The label of a system: a nested group shows as its name in brackets,
      or its type name in brackets when it has no name; a plain system as
      its type name. */
  function KindLabel(kind: SystemKind): (r: string)
    ensures kind.Group? ==> |r| >= 2 && r[0] == '[' && r[|r| - 1] == ']'
    ensures kind.Group? && kind.systems.name.Some? ==> r[1..|r| - 1] == kind.systems.name.value
    ensures kind.Group? && kind.systems.name.None? ==> r[1..|r| - 1] == kind.systems.typeName
    ensures kind.Plain? ==> r == kind.typeName
  {
    match kind
    case Plain(typeName) => typeName
    case Group(g) => "[" + (if g.name.Some? then g.name.value else g.typeName) + "]"
  }

  /** The two filtered walks. */
  datatype Phase = Init | Destroy

  /** Whether the walk of phase `p` shows the item: it implements
      `IEcsInitSystem`, respectively `IEcsDestroySystem`. */
  predicate Shows(item: SystemItem, p: Phase) {
    match p
    case Init => item.isInit
    case Destroy => item.isDestroy
  }

  /** The lines the walk of phase `p` draws for group `g` when entered at
      indent level `d`: nothing for an empty group, otherwise its shown
      systems one level deeper. All of them sit deeper than `d`. */
  ghost function PhaseLines(g: EcsSystems, d: int, p: Phase): (r: seq<Line>)
    requires Tree(g)
    ensures forall i :: 0 <= i < |r| ==> r[i].Label? && r[i].indent > d
    decreases g.height, 2, 0
  {
    if |g.allSystems| == 0 then [] else PhasePrefix(g, |g.allSystems|, d + 1, p)
  }

  /** The lines drawn for the first `n` systems of `g` at indent level `d`. */
  ghost function PhasePrefix(g: EcsSystems, n: nat, d: int, p: Phase): (r: seq<Line>)
    requires Tree(g) && n <= |g.allSystems|
    ensures forall i :: 0 <= i < |r| ==> r[i].Label? && r[i].indent >= d
    decreases g.height, 1, n
  {
    if n == 0 then [] else PhasePrefix(g, n - 1, d, p) + PhaseItem(g, n - 1, d, p)
  }

  /** The lines drawn for system `i` of `g` at indent level `d`: when the
      walk shows it, its label, followed, for a nested group, by that
      group's own walk; nothing otherwise. */
  ghost function PhaseItem(g: EcsSystems, i: nat, d: int, p: Phase): (r: seq<Line>)
    requires Tree(g) && i < |g.allSystems|
    ensures forall j :: 0 <= j < |r| ==> r[j].Label? && r[j].indent >= d
    decreases g.height, 0, 0
  {
    var item := g.allSystems[i];
    if Shows(item, p) then
      [Label(d, KindLabel(item.kind))] + (if item.kind.Group? then PhaseLines(item.kind.systems, d, p) else [])
    else []
  }

  /** `OnInitSystemsGUI`. */
  method OnInitSystemsGUI(gui: Gui, g: EcsSystems)
    requires Tree(g)
    modifies gui
    ensures gui.lines == old(gui.lines) + PhaseLines(g, old(gui.indentLevel), Init)
    ensures gui.indentLevel == old(gui.indentLevel)
    ensures gui.enabled == old(gui.enabled) && gui.toggles == old(gui.toggles)
    decreases g.height
  {
    var systems := g.allSystems;
    if |systems| > 0 {
      gui.indentLevel := gui.indentLevel + 1;
      var i := 0;
      while i < |systems|
        invariant 0 <= i <= |systems|
        invariant gui.lines == old(gui.lines) + PhasePrefix(g, i, old(gui.indentLevel) + 1, Init)
        invariant gui.indentLevel == old(gui.indentLevel) + 1
        invariant gui.enabled == old(gui.enabled) && gui.toggles == old(gui.toggles)
      {
        var item := systems[i];
        ghost var before := gui.lines;
        ghost var d := gui.indentLevel;
        if item.isInit {
          gui.LabelField(KindLabel(item.kind));
          if item.kind.Group? {
            OnInitSystemsGUI(gui, item.kind.systems);
            AppendAssoc(before, [Label(d, KindLabel(item.kind))], PhaseLines(item.kind.systems, d, Init));
          }
        }
        assert gui.lines == before + PhaseItem(g, i, d, Init);
        AppendAssoc(old(gui.lines), PhasePrefix(g, i, d, Init), PhaseItem(g, i, d, Init));
        i := i + 1;
      }
      gui.indentLevel := gui.indentLevel - 1;
    }
  }

  /** `OnDestroySystemsGUI`. */
  method OnDestroySystemsGUI(gui: Gui, g: EcsSystems)
    requires Tree(g)
    modifies gui
    ensures gui.lines == old(gui.lines) + PhaseLines(g, old(gui.indentLevel), Destroy)
    ensures gui.indentLevel == old(gui.indentLevel)
    ensures gui.enabled == old(gui.enabled) && gui.toggles == old(gui.toggles)
    decreases g.height
  {
    var systems := g.allSystems;
    if |systems| > 0 {
      gui.indentLevel := gui.indentLevel + 1;
      var i := 0;
      while i < |systems|
        invariant 0 <= i <= |systems|
        invariant gui.lines == old(gui.lines) + PhasePrefix(g, i, old(gui.indentLevel) + 1, Destroy)
        invariant gui.indentLevel == old(gui.indentLevel) + 1
        invariant gui.enabled == old(gui.enabled) && gui.toggles == old(gui.toggles)
      {
        var item := systems[i];
        ghost var before := gui.lines;
        ghost var d := gui.indentLevel;
        if item.isDestroy {
          gui.LabelField(KindLabel(item.kind));
          if item.kind.Group? {
            OnDestroySystemsGUI(gui, item.kind.systems);
            AppendAssoc(before, [Label(d, KindLabel(item.kind))], PhaseLines(item.kind.systems, d, Destroy));
          }
        }
        assert gui.lines == before + PhaseItem(g, i, d, Destroy);
        AppendAssoc(old(gui.lines), PhasePrefix(g, i, d, Destroy), PhaseItem(g, i, d, Destroy));
        i := i + 1;
      }
      gui.indentLevel := gui.indentLevel - 1;
    }
  }

  /** The texts of the lines drawn at indent level `d`, in order. */
  function AtIndent(lines: seq<Line>, d: int): seq<string>
    decreases |lines|
  {
    if |lines| == 0 then []
    else AtIndent(lines[..|lines| - 1], d) +
         (if lines[|lines| - 1].indent == d then [lines[|lines| - 1].text] else [])
  }

  lemma {:induction false} AtIndentAppend(a: seq<Line>, b: seq<Line>, d: int)
    ensures AtIndent(a + b, d) == AtIndent(a, d) + AtIndent(b, d)
    decreases |b|
  {
    if |b| > 0 {
      assert (a + b)[..|a + b| - 1] == a + b[..|b| - 1];
      AtIndentAppend(a, b[..|b| - 1], d);
    } else {
      assert a + b == a;
    }
  }

  lemma {:induction false} AtIndentDeeper(lines: seq<Line>, d: int)
    requires forall i :: 0 <= i < |lines| ==> lines[i].indent > d
    ensures AtIndent(lines, d) == []
    decreases |lines|
  {
    if |lines| > 0 {
      AtIndentDeeper(lines[..|lines| - 1], d);
    }
  }

  /** The labels of the items of `items` that the walk of phase `p` shows,
      in list order. */
  function ShownLabels(items: seq<SystemItem>, p: Phase): seq<string>
    decreases |items|
  {
    if |items| == 0 then []
    else ShownLabels(items[..|items| - 1], p) +
         (if Shows(items[|items| - 1], p) then [KindLabel(items[|items| - 1].kind)] else [])
  }

  /** A shown system adds its own label at its indent level and nothing
      else there; a system not shown adds nothing. */
  lemma PhaseItemTopLevel(g: EcsSystems, i: nat, d: int, p: Phase)
    requires Tree(g) && i < |g.allSystems|
    ensures AtIndent(PhaseItem(g, i, d, p), d) ==
            if Shows(g.allSystems[i], p) then [KindLabel(g.allSystems[i].kind)] else []
  {
    var item := g.allSystems[i];
    if Shows(item, p) {
      var head := [Label(d, KindLabel(item.kind))];
      var nested := if item.kind.Group? then PhaseLines(item.kind.systems, d, p) else [];
      AtIndentAppend(head, nested, d);
      AtIndentDeeper(nested, d);
      assert AtIndent(head, d) == [KindLabel(item.kind)] by {
        assert head[..0] == [];
      }
    }
  }

  lemma {:induction false} PhasePrefixTopLevel(g: EcsSystems, n: nat, d: int, p: Phase)
    requires Tree(g) && n <= |g.allSystems|
    ensures AtIndent(PhasePrefix(g, n, d, p), d) == ShownLabels(g.allSystems[..n], p)
    decreases n
  {
    if n > 0 {
      var item := g.allSystems[n - 1];
      PhasePrefixTopLevel(g, n - 1, d, p);
      assert ShownLabels(g.allSystems[..n], p) ==
             ShownLabels(g.allSystems[..n - 1], p) + (if Shows(item, p) then [KindLabel(item.kind)] else []) by {
        assert g.allSystems[..n][..n - 1] == g.allSystems[..n - 1];
      }
      assert PhasePrefix(g, n, d, p) == PhasePrefix(g, n - 1, d, p) + PhaseItem(g, n - 1, d, p);
      AtIndentAppend(PhasePrefix(g, n - 1, d, p), PhaseItem(g, n - 1, d, p), d);
      PhaseItemTopLevel(g, n - 1, d, p);
    }
  }

  /** The filtered walks show, one level deeper than where they start,
      exactly the labels of the group's own systems that implement the
      phase's interface, in list order; everything drawn for nested groups
      sits deeper still. */
  lemma PhaseTopLevel(g: EcsSystems, d: int, p: Phase)
    requires Tree(g)
    ensures AtIndent(PhaseLines(g, d, p), d + 1) == ShownLabels(g.allSystems, p)
  {
    if |g.allSystems| > 0 {
      PhasePrefixTopLevel(g, |g.allSystems|, d + 1, p);
      assert g.allSystems[..|g.allSystems|] == g.allSystems;
    }
  }

  /** A filtered walk draws nothing for a group none of whose systems
      implements the phase's interface: it never descends into a group that
      was not itself shown. */
  lemma {:induction false} PhaseNothingShown(g: EcsSystems, n: nat, d: int, p: Phase)
    requires Tree(g) && n <= |g.allSystems|
    requires forall i :: 0 <= i < n ==> !Shows(g.allSystems[i], p)
    ensures PhasePrefix(g, n, d, p) == []
    decreases n
  {
    if n > 0 {
      PhaseNothingShown(g, n - 1, d, p);
      assert PhaseItem(g, n - 1, d, p) == [];
    }
  }

  /** What the run walk has produced: the lines drawn, the `Active` flags
      of the run items, and the number of toggles drawn. */
  datatype RunState = RunState(lines: seq<Line>, act: map<RunItem, bool>, toggles: nat)

  /** The flag `m` records for `x`, false when it records none. */
  function Flag(m: map<RunItem, bool>, x: RunItem): bool {
    if x in m then m[x] else false
  }

  /** One toggle: drawn at indent level `d` with the item's current flag,
      whose answer becomes the item's new flag. */
  function RunStep(item: RunItem, d: int, clicks: seq<bool>, enabled: bool, s: RunState): (r: RunState)
    ensures r.act == s.act[item := ToggleAnswer(clicks, s.toggles, enabled, Flag(s.act, item))]
    ensures r.lines == s.lines + [Toggle(d, KindLabel(item.system), Flag(s.act, item))]
    ensures r.toggles == s.toggles + 1
  {
    var v := ToggleAnswer(clicks, s.toggles, enabled, Flag(s.act, item));
    RunState(s.lines + [Toggle(d, KindLabel(item.system), Flag(s.act, item))], s.act[item := v], s.toggles + 1)
  }

  /** The state after the run walk of group `g`, entered at indent level
      `d` in state `s`: nothing for an empty group, otherwise its run items
      one level deeper. */
  ghost function RunWalk(g: EcsSystems, d: int, clicks: seq<bool>, enabled: bool, s: RunState): (r: RunState)
    requires Tree(g)
    ensures r.toggles >= s.toggles
    decreases g.height, 2, 0
  {
    if |g.runSystems| == 0 then s else RunPrefix(g, |g.runSystems|, d + 1, clicks, enabled, s)
  }

  /** The state after the first `n` run items of `g` at indent level `d`. */
  ghost function RunPrefix(g: EcsSystems, n: nat, d: int, clicks: seq<bool>, enabled: bool, s: RunState): (r: RunState)
    requires Tree(g) && n <= |g.runSystems|
    ensures r.toggles >= s.toggles
    decreases g.height, 1, n
  {
    if n == 0 then s
    else RunItemStep(g, n - 1, d, clicks, enabled, RunPrefix(g, n - 1, d, clicks, enabled, s))
  }

  /** The state after run item `i` of `g` at indent level `d`: its toggle
      is drawn with its current flag, the answer is written to the flag,
      and a nested group is walked only when its flag is now set. */
  ghost function RunItemStep(g: EcsSystems, i: nat, d: int, clicks: seq<bool>, enabled: bool, s: RunState): (r: RunState)
    requires Tree(g) && i < |g.runSystems|
    ensures r.toggles >= s.toggles
    decreases g.height, 0, 0
  {
    var item := g.runSystems[i];
    RunItemsOf(g, i);
    var s2 := RunStep(item, d, clicks, enabled, s);
    if item.system.Group? && Flag(s2.act, item) then RunWalk(item.system.systems, d, clicks, enabled, s2)
    else s2
  }

  /** The run walk writes only the flags of the run items reachable from
      the group it starts at. */
  lemma {:induction false} RunWalkFrame(g: EcsSystems, d: int, clicks: seq<bool>, enabled: bool, s: RunState)
    requires Tree(g)
    ensures forall x :: x !in Reachable(g) ==> Flag(RunWalk(g, d, clicks, enabled, s).act, x) == Flag(s.act, x)
    decreases g.height, 1
  {
    if |g.runSystems| > 0 {
      RunPrefixFrame(g, |g.runSystems|, d + 1, clicks, enabled, s);
    }
  }

  lemma {:induction false} RunPrefixFrame(g: EcsSystems, n: nat, d: int, clicks: seq<bool>, enabled: bool, s: RunState)
    requires Tree(g) && n <= |g.runSystems|
    ensures forall x :: x !in ReachablePrefix(g, n) ==> Flag(RunPrefix(g, n, d, clicks, enabled, s).act, x) == Flag(s.act, x)
    decreases g.height, 0, n
  {
    if n > 0 {
      var item := g.runSystems[n - 1];
      RunItemsOf(g, n - 1);
      RunPrefixFrame(g, n - 1, d, clicks, enabled, s);
      var s1 := RunPrefix(g, n - 1, d, clicks, enabled, s);
      assert RunPrefix(g, n, d, clicks, enabled, s) == RunItemStep(g, n - 1, d, clicks, enabled, s1);
      var s2 := RunStep(item, d, clicks, enabled, s1);
      if item.system.Group? && Flag(s2.act, item) {
        RunWalkFrame(item.system.systems, d, clicks, enabled, s2);
      }
    }
  }

  /** `r` continues `s`: it keeps the lines of `s` and adds only toggles
      drawn at indent level `d` or deeper, one per toggle answered. */
  ghost predicate Extends(s: RunState, r: RunState, d: int) {
    && |r.lines| >= |s.lines| && r.lines[..|s.lines|] == s.lines
    && r.toggles - s.toggles == |r.lines| - |s.lines|
    && forall i :: |s.lines| <= i < |r.lines| ==> r.lines[i].Toggle? && r.lines[i].indent >= d
  }

  lemma ExtendsTrans(s: RunState, m: RunState, r: RunState, d: int, e: int)
    requires Extends(s, m, d) && Extends(m, r, e) && d <= e
    ensures Extends(s, r, d)
  {
    assert r.lines[..|s.lines|] == r.lines[..|m.lines|][..|s.lines|];
    forall i | |s.lines| <= i < |r.lines|
      ensures r.lines[i].Toggle? && r.lines[i].indent >= d
    {
      if i < |m.lines| {
        assert r.lines[i] == r.lines[..|m.lines|][i];
      }
    }
  }

  /** The run walk only appends: every new line is a toggle drawn deeper
      than where the walk started, one per toggle answered. */
  lemma {:induction false} RunWalkShape(g: EcsSystems, d: int, clicks: seq<bool>, enabled: bool, s: RunState)
    requires Tree(g)
    ensures Extends(s, RunWalk(g, d, clicks, enabled, s), d + 1)
    decreases g.height, 1
  {
    if |g.runSystems| > 0 {
      RunPrefixShape(g, |g.runSystems|, d + 1, clicks, enabled, s);
    } else {
      assert s.lines[..|s.lines|] == s.lines;
    }
  }

  lemma {:induction false} RunPrefixShape(g: EcsSystems, n: nat, d: int, clicks: seq<bool>, enabled: bool, s: RunState)
    requires Tree(g) && n <= |g.runSystems|
    ensures Extends(s, RunPrefix(g, n, d, clicks, enabled, s), d)
    decreases g.height, 0, n
  {
    if n == 0 {
      assert s.lines[..|s.lines|] == s.lines;
    } else {
      var item := g.runSystems[n - 1];
      RunItemsOf(g, n - 1);
      RunPrefixShape(g, n - 1, d, clicks, enabled, s);
      var s1 := RunPrefix(g, n - 1, d, clicks, enabled, s);
      assert RunPrefix(g, n, d, clicks, enabled, s) == RunItemStep(g, n - 1, d, clicks, enabled, s1);
      var s2 := RunStep(item, d, clicks, enabled, s1);
      assert Extends(s1, s2, d) by {
        assert s2.lines[..|s1.lines|] == s1.lines;
      }
      ExtendsTrans(s, s1, s2, d, d);
      if item.system.Group? && Flag(s2.act, item) {
        RunWalkShape(item.system.systems, d, clicks, enabled, s2);
        ExtendsTrans(s, s2, RunWalk(item.system.systems, d, clicks, enabled, s2), d, d + 1);
      }
    }
  }

  /** The flags of the given run items, as they are in the heap. */
  ghost function Actives(items: set<RunItem>): (m: map<RunItem, bool>)
    reads items
    ensures m.Keys == items && forall x :: x in items ==> m[x] == x.active
  {
    map x | x in items :: x.active
  }

  /** `OnRunSystemsGUI`. `act` names the flags the items have on entry. */
  method OnRunSystemsGUI(gui: Gui, g: EcsSystems, ghost act: map<RunItem, bool>)
    requires Tree(g)
    requires forall x :: x in g.runItems ==> x.active == Flag(act, x)
    modifies gui, g.runItems
    ensures var s := RunWalk(g, old(gui.indentLevel), gui.clicks, gui.enabled,
                             RunState(old(gui.lines), act, old(gui.toggles)));
            && gui.lines == s.lines && gui.toggles == s.toggles
            && forall x :: x in g.runItems ==> x.active == Flag(s.act, x)
    ensures gui.indentLevel == old(gui.indentLevel) && gui.enabled == old(gui.enabled)
    decreases g.height, 1
  {
    var systems := g.runSystems;
    if |systems| > 0 {
      ghost var s0 := RunState(gui.lines, act, gui.toggles);
      gui.indentLevel := gui.indentLevel + 1;
      var i := 0;
      while i < |systems|
        invariant 0 <= i <= |systems|
        invariant var s := RunPrefix(g, i, old(gui.indentLevel) + 1, gui.clicks, gui.enabled, s0);
                  && gui.lines == s.lines && gui.toggles == s.toggles
                  && forall x :: x in g.runItems ==> x.active == Flag(s.act, x)
        invariant gui.indentLevel == old(gui.indentLevel) + 1 && gui.enabled == old(gui.enabled)
      {
        OnRunItemGUI(gui, g, i, RunPrefix(g, i, gui.indentLevel, gui.clicks, gui.enabled, s0));
        i := i + 1;
      }
      gui.indentLevel := gui.indentLevel - 1;
    }
  }

  /** The body of the loop of `OnRunSystemsGUI` for run item `i` of `g`:
      its toggle, then the walk of its nested group when the toggle leaves
      the item active. `s` names the state on entry. */
  method OnRunItemGUI(gui: Gui, g: EcsSystems, i: nat, ghost s: RunState)
    requires Tree(g) && i < |g.runSystems|
    requires gui.lines == s.lines && gui.toggles == s.toggles
    requires forall x :: x in g.runItems ==> x.active == Flag(s.act, x)
    modifies gui, g.runItems
    ensures var r := RunItemStep(g, i, gui.indentLevel, gui.clicks, gui.enabled, s);
            && gui.lines == r.lines && gui.toggles == r.toggles
            && forall x :: x in g.runItems ==> x.active == Flag(r.act, x)
    ensures gui.indentLevel == old(gui.indentLevel) && gui.enabled == old(gui.enabled)
    decreases g.height, 0
  {
    var runItem := g.runSystems[i];
    RunItemsOf(g, i);
    runItem.active := gui.ToggleLeft(KindLabel(runItem.system), runItem.active);
    ghost var s2 := RunStep(runItem, gui.indentLevel, gui.clicks, gui.enabled, s);
    assert gui.lines == s2.lines && gui.toggles == s2.toggles;
    assert forall x :: x in g.runItems ==> x.active == Flag(s2.act, x);
    if runItem.system.Group? && runItem.active {
      var nested := runItem.system.systems;
      label before:
      OnRunSystemsGUI(gui, nested, s2.act);
      ghost var r := RunWalk(nested, gui.indentLevel, gui.clicks, gui.enabled, s2);
      RunWalkFrame(nested, gui.indentLevel, gui.clicks, gui.enabled, s2);
      forall x | x in g.runItems
        ensures x.active == Flag(r.act, x)
      {
        if x !in nested.runItems {
          assert x.active == old@before(x.active);
        }
      }
    }
  }

  /** The labels of the run items, in list order. */
  function RunLabels(items: seq<RunItem>): seq<string>
    decreases |items|
  {
    if |items| == 0 then []
    else RunLabels(items[..|items| - 1]) + [KindLabel(items[|items| - 1].system)]
  }

  /** A nested walk entered at indent level `d` draws nothing at `d`. */
  lemma RunWalkBelow(g: EcsSystems, d: int, clicks: seq<bool>, enabled: bool, s: RunState)
    requires Tree(g)
    ensures AtIndent(RunWalk(g, d, clicks, enabled, s).lines, d) == AtIndent(s.lines, d)
  {
    var r := RunWalk(g, d, clicks, enabled, s);
    RunWalkShape(g, d, clicks, enabled, s);
    var tail := r.lines[|s.lines|..];
    assert r.lines == s.lines + tail;
    AtIndentAppend(s.lines, tail, d);
    assert forall i :: 0 <= i < |tail| ==> tail[i] == r.lines[|s.lines| + i];
    AtIndentDeeper(tail, d);
  }

  /** A toggle drawn at indent level `d` adds its label at `d`. */
  lemma RunStepTopLevel(item: RunItem, d: int, clicks: seq<bool>, enabled: bool, s: RunState)
    ensures AtIndent(RunStep(item, d, clicks, enabled, s).lines, d) == AtIndent(s.lines, d) + [KindLabel(item.system)]
  {
    var toggle := Toggle(d, KindLabel(item.system), Flag(s.act, item));
    AtIndentAppend(s.lines, [toggle], d);
    assert AtIndent([toggle], d) == [KindLabel(item.system)] by {
      assert [toggle][..0] == [];
    }
  }

  /** One run item adds its own label at its indent level and nothing
      else there. */
  lemma RunItemTopLevel(g: EcsSystems, i: nat, d: int, clicks: seq<bool>, enabled: bool, s: RunState)
    requires Tree(g) && i < |g.runSystems|
    ensures AtIndent(RunItemStep(g, i, d, clicks, enabled, s).lines, d) ==
            AtIndent(s.lines, d) + [KindLabel(g.runSystems[i].system)]
  {
    var item := g.runSystems[i];
    RunItemsOf(g, i);
    var s2 := RunStep(item, d, clicks, enabled, s);
    RunStepTopLevel(item, d, clicks, enabled, s);
    if item.system.Group? && Flag(s2.act, item) {
      RunWalkBelow(item.system.systems, d, clicks, enabled, s2);
    }
  }

  lemma {:induction false} RunPrefixTopLevel(g: EcsSystems, n: nat, d: int, clicks: seq<bool>, enabled: bool, s: RunState)
    requires Tree(g) && n <= |g.runSystems|
    ensures AtIndent(RunPrefix(g, n, d, clicks, enabled, s).lines, d) == AtIndent(s.lines, d) + RunLabels(g.runSystems[..n])
    decreases n
  {
    if n > 0 {
      RunPrefixTopLevel(g, n - 1, d, clicks, enabled, s);
      var s1 := RunPrefix(g, n - 1, d, clicks, enabled, s);
      assert RunPrefix(g, n, d, clicks, enabled, s) == RunItemStep(g, n - 1, d, clicks, enabled, s1);
      RunItemTopLevel(g, n - 1, d, clicks, enabled, s1);
      var name := KindLabel(g.runSystems[n - 1].system);
      assert RunLabels(g.runSystems[..n]) == RunLabels(g.runSystems[..n - 1]) + [name] by {
        assert g.runSystems[..n][..n - 1] == g.runSystems[..n - 1];
      }
      AppendAssoc(AtIndent(s.lines, d), RunLabels(g.runSystems[..n - 1]), [name]);
    }
  }

  /** The run walk draws, one level deeper than where it starts, exactly
      one toggle per run item of the group, labelled in list order; the
      toggles of nested groups sit deeper still. */
  lemma RunTopLevel(g: EcsSystems, d: int, clicks: seq<bool>, enabled: bool, s: RunState)
    requires Tree(g)
    ensures AtIndent(RunWalk(g, d, clicks, enabled, s).lines, d + 1) == AtIndent(s.lines, d + 1) + RunLabels(g.runSystems)
  {
    if |g.runSystems| > 0 {
      RunPrefixTopLevel(g, |g.runSystems|, d + 1, clicks, enabled, s);
      assert g.runSystems[..|g.runSystems|] == g.runSystems;
    }
  }

  /** No toggle from the `k`-th on is clicked, or the GUI is disabled. */
  predicate Unclicked(clicks: seq<bool>, k: nat, enabled: bool) {
    !enabled || forall j :: k <= j < |clicks| ==> !clicks[j]
  }

  /** Without a click the run walk writes every flag back unchanged. */
  lemma {:induction false} RunWalkUnclicked(g: EcsSystems, d: int, clicks: seq<bool>, enabled: bool, s: RunState)
    requires Tree(g) && g.runItems <= s.act.Keys && Unclicked(clicks, s.toggles, enabled)
    ensures RunWalk(g, d, clicks, enabled, s).act == s.act
    decreases g.height, 1
  {
    if |g.runSystems| > 0 {
      RunPrefixUnclicked(g, |g.runSystems|, d + 1, clicks, enabled, s);
    }
  }

  lemma {:induction false} RunPrefixUnclicked(g: EcsSystems, n: nat, d: int, clicks: seq<bool>, enabled: bool, s: RunState)
    requires Tree(g) && n <= |g.runSystems| && g.runItems <= s.act.Keys && Unclicked(clicks, s.toggles, enabled)
    ensures RunPrefix(g, n, d, clicks, enabled, s).act == s.act
    decreases g.height, 0, n
  {
    if n > 0 {
      RunPrefixUnclicked(g, n - 1, d, clicks, enabled, s);
      var item := g.runSystems[n - 1];
      RunItemsOf(g, n - 1);
      var s1 := RunPrefix(g, n - 1, d, clicks, enabled, s);
      assert RunPrefix(g, n, d, clicks, enabled, s) == RunItemStep(g, n - 1, d, clicks, enabled, s1);
      assert Unclicked(clicks, s1.toggles, enabled);
      var s2 := RunStep(item, d, clicks, enabled, s1);
      assert s2.act == s.act by {
        assert s2.act == s1.act[item := s1.act[item]];
      }
      if item.system.Group? && Flag(s2.act, item) {
        RunWalkUnclicked(item.system.systems, d, clicks, enabled, s2);
      }
    }
  }

  /** `OnInspectorGUI`: draws the three sections with the GUI enabled, then
      gives `GUI.enabled` back its saved value. */
  method OnInspectorGUI(gui: Gui, observer: EcsSystemsObserver)
    requires Tree(observer.systems)
    modifies gui, observer.systems.runItems
    ensures var g := observer.systems;
            var d := old(gui.indentLevel);
            var s := RunWalk(g, d, gui.clicks, true,
                             RunState(old(gui.lines) + [Label(d, "Init systems")] + PhaseLines(g, d, Init)
                                      + [Label(d, "Run systems")],
                                      old(Actives(g.runItems)), old(gui.toggles)));
            && gui.lines == s.lines + [Label(d, "Destroy systems")] + PhaseLines(g, d, Destroy)
            && gui.toggles == s.toggles
            && forall x :: x in g.runItems ==> x.active == Flag(s.act, x)
    ensures gui.enabled == old(gui.enabled) && gui.indentLevel == old(gui.indentLevel)
  {
    var savedState := gui.enabled;
    gui.enabled := true;
    var systemsGroup := observer.systems;
    ghost var act := Actives(systemsGroup.runItems);

    gui.LabelField("Init systems");
    OnInitSystemsGUI(gui, systemsGroup);

    gui.LabelField("Run systems");
    OnRunSystemsGUI(gui, systemsGroup, act);

    gui.LabelField("Destroy systems");
    OnDestroySystemsGUI(gui, systemsGroup);

    gui.enabled := savedState;
  }
}
