/**
 * The flag logic of MainWindow (macro.py:522-786) without its widgets: the
 * pack_vars dictionary and its toggling, the extraction of the selected
 * packs, the start/stop handling of backend.running, and the reassignment of
 * the two hotkeys with its conflict check.
 *
 * pack_vars is a dictionary whose iteration order is its insertion order; it
 * is modelled as a sequence of entries with distinct names.
 */
module ControlPanel {
  import opened Wrappers
  import opened Catalog
  import opened Automation

  /** One entry of pack_vars: a pack name and whether the operator selected it. */
  datatype PackVar = PackVar(name: string, selected: bool)

  /** The names of the entries, in dictionary order. */
  function Names(vars: seq<PackVar>): (r: seq<string>)
    ensures |r| == |vars|
    ensures forall i :: 0 <= i < |vars| ==> r[i] == vars[i].name
  {
    if |vars| == 0 then [] else [vars[0].name] + Names(vars[1..])
  }

  /** A dictionary has each key once. */
  ghost predicate DistinctNames(vars: seq<PackVar>)
  {
    forall i, j :: 0 <= i < j < |vars| ==> vars[i].name != vars[j].name
  }

  /** pack_vars[name], or None where indexing would raise KeyError. */
  function Lookup(vars: seq<PackVar>, name: string): (r: Option<bool>)
    ensures r.None? <==> name !in Names(vars)
    ensures r.Some? ==> PackVar(name, r.value) in vars
  {
    if |vars| == 0 then None
    else if vars[0].name == name then Some(vars[0].selected)
    else Lookup(vars[1..], name)
  }

  /**
   * pack_vars[name] = not pack_vars[name] (macro.py:744-746): the entry of
   * that name flips and every other entry stays as it was.  A name that is no
   * key makes the source raise KeyError before anything changes.
   */
  function Toggled(vars: seq<PackVar>, name: string): (r: seq<PackVar>)
    ensures |r| == |vars|
    ensures Names(r) == Names(vars)
    ensures forall i :: 0 <= i < |vars| ==> r[i].selected == (vars[i].selected != (vars[i].name == name))
  {
    if |vars| == 0 then []
    else
      var head := if vars[0].name == name then vars[0].(selected := !vars[0].selected) else vars[0];
      [head] + Toggled(vars[1..], name)
  }

  /** Toggling the same pack twice restores the selection. */
  lemma ToggleTwice(vars: seq<PackVar>, name: string)
    ensures Toggled(Toggled(vars, name), name) == vars
  {
    var r := Toggled(Toggled(vars, name), name);
    assert forall i :: 0 <= i < |vars| ==> r[i].name == Names(r)[i] == Names(vars)[i] == vars[i].name;
  }

  /** Toggling a name that is no key changes nothing. */
  lemma ToggleUnknown(vars: seq<PackVar>, name: string)
    requires name !in Names(vars)
    ensures Toggled(vars, name) == vars
  {
    var r := Toggled(vars, name);
    forall i | 0 <= i < |vars| ensures r[i] == vars[i] {
      assert r[i].name == Names(r)[i] == Names(vars)[i] == vars[i].name;
      assert vars[i].name != name;
    }
  }

  /** After a toggle the toggled pack reads the negation of what it read. */
  lemma {:induction false} ToggleLookupSelf(vars: seq<PackVar>, name: string)
    ensures Lookup(vars, name).Some? ==> Lookup(Toggled(vars, name), name) == Some(!Lookup(vars, name).value)
    ensures Lookup(vars, name).None? ==> Lookup(Toggled(vars, name), name).None?
    decreases |vars|
  {
    if |vars| > 0 && vars[0].name != name {
      ToggleLookupSelf(vars[1..], name);
    }
  }

  /** After a toggle every other pack reads what it read. */
  lemma {:induction false} ToggleLookupOther(vars: seq<PackVar>, name: string, other: string)
    requires other != name
    ensures Lookup(Toggled(vars, name), other) == Lookup(vars, other)
    decreases |vars|
  {
    if |vars| > 0 {
      ToggleLookupOther(vars[1..], name, other);
    }
  }

  /**
   * [name for name, selected in pack_vars.items() if selected] (macro.py:759):
   * the selected names, in dictionary order.
   */
  function SelectedPacks(vars: seq<PackVar>): (r: seq<string>)
    ensures |r| <= |vars|
    ensures forall x :: x in r <==> PackVar(x, true) in vars
  {
    if |vars| == 0 then []
    else
      var rest := SelectedPacks(vars[1..]);
      assert forall x :: PackVar(x, true) in vars <==> vars[0] == PackVar(x, true) || PackVar(x, true) in vars[1..];
      if vars[0].selected then [vars[0].name] + rest else rest
  }

  /** The selection keeps the dictionary order: selecting from a concatenation concatenates the selections. */
  lemma {:induction false} SelectedPacksAppend(a: seq<PackVar>, b: seq<PackVar>)
    ensures SelectedPacks(a + b) == SelectedPacks(a) + SelectedPacks(b)
    decreases |a|
  {
    if |a| == 0 {
      assert a + b == b;
    } else {
      assert (a + b)[0] == a[0];
      assert (a + b)[1..] == a[1..] + b;
      SelectedPacksAppend(a[1..], b);
    }
  }

  /** The initial pack_vars (macro.py:537): every canonical pack, none selected. */
  function InitialPackVars(names: seq<string>): (r: seq<PackVar>)
    ensures Names(r) == names
    ensures forall i :: 0 <= i < |r| ==> !r[i].selected
  {
    if |names| == 0 then [] else [PackVar(names[0], false)] + InitialPackVars(names[1..])
  }

  /** Nothing is selected before the operator toggles a pack. */
  lemma {:induction false} NothingSelectedInitially(names: seq<string>)
    ensures SelectedPacks(InitialPackVars(names)) == []
    decreases |names|
  {
    if |names| > 0 {
      var r := InitialPackVars(names);
      assert r[1..] == InitialPackVars(names[1..]);
      NothingSelectedInitially(names[1..]);
    }
  }

  /** Every selected pack is a key of pack_vars, and reads selected there. */
  lemma SelectedAreKeys(vars: seq<PackVar>, x: string)
    requires DistinctNames(vars)
    requires x in SelectedPacks(vars)
    ensures x in Names(vars)
    ensures Lookup(vars, x) == Some(true)
  {
    var i :| 0 <= i < |vars| && vars[i] == PackVar(x, true);
    assert Names(vars)[i] == x;
    var b := Lookup(vars, x).value;
    var j :| 0 <= j < |vars| && vars[j] == PackVar(x, b);
    assert i == j;
  }

  /** With the canonical keys of the constructor, every selected pack is a canonical pack. */
  lemma SelectedAreCanonical(vars: seq<PackVar>)
    requires Names(vars) == PackFullNames
    ensures forall k :: 0 <= k < |SelectedPacks(vars)| ==> SelectedPacks(vars)[k] in PackFullNames
  {
    forall k | 0 <= k < |SelectedPacks(vars)| ensures SelectedPacks(vars)[k] in PackFullNames {
      var x := SelectedPacks(vars)[k];
      var i :| 0 <= i < |vars| && vars[i] == PackVar(x, true);
      assert Names(vars)[i] == x;
    }
  }

  /** The two hotkeys of the control panel. */
  datatype Hotkeys = Hotkeys(start: string, stop: string)

  /** The default hotkeys (macro.py:538-539). */
  const DefaultHotkeys := Hotkeys("f1", "f2")

  /**
   * _finalize_hotkey_capture (macro.py:776-786): a start hotkey equal to the
   * stop hotkey, or a stop hotkey equal to the start hotkey, is refused;
   * otherwise "start" sets the start hotkey and every other target the stop
   * hotkey.  The buttons only ever pass "start" or "stop" (macro.py:615, 621).
   */
  function Reassign(keys: Hotkeys, target: string, hotkey: string): (r: Hotkeys)
    ensures target == "start" && hotkey == keys.stop ==> r == keys
    ensures target == "stop" && hotkey == keys.start ==> r == keys
    ensures target == "start" && hotkey != keys.stop ==> r == keys.(start := hotkey)
    ensures target != "start" && !(target == "stop" && hotkey == keys.start) ==> r == keys.(stop := hotkey)
  {
    if target == "start" && hotkey == keys.stop then keys
    else if target == "stop" && hotkey == keys.start then keys
    else if target == "start" then keys.(start := hotkey)
    else keys.(stop := hotkey)
  }

  /** The two hotkeys never become equal through the buttons of the panel. */
  lemma ReassignKeepsDistinct(keys: Hotkeys, target: string, hotkey: string)
    requires keys.start != keys.stop
    requires target == "start" || target == "stop"
    ensures Reassign(keys, target, hotkey).start != Reassign(keys, target, hotkey).stop
  {
  }

  /**
   * A capture leaves the hotkeys as they were exactly when it is refused as a
   * conflict or assigns the hotkey its target already has.
   */
  lemma ReassignUnchanged(keys: Hotkeys, target: string, hotkey: string)
    requires keys.start != keys.stop
    requires target == "start" || target == "stop"
    ensures (Reassign(keys, target, hotkey) == keys)
            <==> (hotkey == keys.start || hotkey == keys.stop)
  {
  }

  /** A sequence of button reassignments from the defaults keeps the hotkeys distinct. */
  lemma {:induction false} ReassignmentsKeepDistinct(keys: Hotkeys, requests: seq<(string, string)>)
    requires keys.start != keys.stop
    requires forall k :: 0 <= k < |requests| ==> requests[k].0 == "start" || requests[k].0 == "stop"
    ensures var r := ReassignAll(keys, requests); r.start != r.stop
    decreases |requests|
  {
    if |requests| > 0 {
      ReassignKeepsDistinct(keys, requests[0].0, requests[0].1);
      ReassignmentsKeepDistinct(Reassign(keys, requests[0].0, requests[0].1), requests[1..]);
    }
  }

  /**
   * The hotkeys after a series of captures, one reassignment after the other:
   * each hotkey is its old value or one of the captured keys, and only
   * captures for its own target can change it.
   */
  function ReassignAll(keys: Hotkeys, requests: seq<(string, string)>): (r: Hotkeys)
    ensures r.start == keys.start || exists k :: 0 <= k < |requests| && requests[k].1 == r.start
    ensures r.stop == keys.stop || exists k :: 0 <= k < |requests| && requests[k].1 == r.stop
    ensures (forall k :: 0 <= k < |requests| ==> requests[k].0 != "start") ==> r.start == keys.start
    ensures (forall k :: 0 <= k < |requests| ==> requests[k].0 == "start") ==> r.stop == keys.stop
    decreases |requests|
  {
    if |requests| == 0 then keys
    else
      var r := ReassignAll(Reassign(keys, requests[0].0, requests[0].1), requests[1..]);
      assert forall k :: 0 <= k < |requests[1..]| ==> requests[1..][k] == requests[k + 1];
      r
  }

  /** The defaults are distinct, so every series of captures through the buttons keeps them distinct. */
  lemma DefaultsStayDistinct(requests: seq<(string, string)>)
    requires forall k :: 0 <= k < |requests| ==> requests[k].0 == "start" || requests[k].0 == "stop"
    ensures ReassignAll(DefaultHotkeys, requests).start != ReassignAll(DefaultHotkeys, requests).stop
  {
    ReassignmentsKeepDistinct(DefaultHotkeys, requests);
  }

  /** MainWindow's flag state: the backend it drives, pack_vars and the two hotkeys. */
  class MainWindow {
    const backend: Backend
    var packVars: seq<PackVar>
    var hotkeys: Hotkeys

    /** pack_vars has the canonical packs as keys, each once, and the hotkeys are distinct. */
    ghost predicate Valid()
      reads this
    {
      Names(packVars) == PackFullNames && DistinctNames(packVars) && hotkeys.start != hotkeys.stop
    }

    /** MainWindow.__init__ (macro.py:533-540): every canonical pack unselected, hotkeys f1 and f2. */
    constructor(backend: Backend)
      ensures Valid()
      ensures this.backend == backend
      ensures packVars == InitialPackVars(PackFullNames) && SelectedPacks(packVars) == []
      ensures hotkeys == DefaultHotkeys
    {
      this.backend := backend;
      packVars := InitialPackVars(PackFullNames);
      hotkeys := DefaultHotkeys;
      new;
      NothingSelectedInitially(PackFullNames);
      CanonicalNamesDistinct(packVars);
    }

    /** toggle_pack (macro.py:744-746); false, with nothing changed, where the source raises KeyError. */
    method TogglePack(name: string) returns (known: bool)
      requires Valid()
      modifies this`packVars
      ensures Valid()
      ensures known <==> name in Names(old(packVars))
      ensures packVars == Toggled(old(packVars), name)
      ensures !known ==> packVars == old(packVars)
    {
      known := Lookup(packVars, name).Some?;
      if !known {
        ToggleUnknown(packVars, name);
        return;
      }
      ToggledDistinct(packVars, name);
      packVars := Toggled(packVars, name);
    }

    /**
     * start_macro (macro.py:754-764): nothing when the macro runs already;
     * otherwise backend.running becomes true and the worker is handed the
     * selected packs in dictionary order.
     */
    method StartMacro() returns (worker: Option<seq<string>>)
      requires Valid()
      modifies backend`running
      ensures old(backend.running) ==> worker.None? && backend.running
      ensures !old(backend.running) ==> worker == Some(SelectedPacks(packVars)) && backend.running
      ensures worker.Some? ==> forall k :: 0 <= k < |worker.value| ==> worker.value[k] in PackFullNames
    {
      SelectedAreCanonical(packVars);
      if backend.running {
        return None;
      }
      backend.running := true;
      worker := Some(SelectedPacks(packVars));
    }

    /** stop_macro (macro.py:766-769): running becomes false, whatever it was. */
    method StopMacro()
      modifies backend`running
      ensures !backend.running
    {
      if backend.running {
        backend.running := false;
      }
    }

    /** toggle_macro (macro.py:723-727): stop a running macro, start a stopped one. */
    method ToggleMacro() returns (worker: Option<seq<string>>)
      requires Valid()
      modifies backend`running
      ensures backend.running == !old(backend.running)
      ensures worker.Some? <==> !old(backend.running)
      ensures worker.Some? ==> worker.value == SelectedPacks(packVars)
    {
      if backend.running {
        StopMacro();
        return None;
      }
      worker := StartMacro();
    }

    /** on_macro_finished (macro.py:771-774): the worker's end clears running. */
    method OnMacroFinished()
      modifies backend`running
      ensures !backend.running
    {
      backend.running := false;
    }

    /** _finalize_hotkey_capture (macro.py:776-788); accepted is false for a refused conflict. */
    method FinalizeHotkeyCapture(target: string, hotkey: string) returns (accepted: bool)
      requires Valid()
      requires target == "start" || target == "stop"
      modifies this`hotkeys
      ensures Valid()
      ensures hotkeys == Reassign(old(hotkeys), target, hotkey)
      ensures !accepted <==> (target == "start" && hotkey == old(hotkeys).stop) || (target == "stop" && hotkey == old(hotkeys).start)
    {
      if target == "start" && hotkey == hotkeys.stop {
        return false;
      } else if target == "stop" && hotkey == hotkeys.start {
        return false;
      }
      if target == "start" {
        hotkeys := hotkeys.(start := hotkey);
      } else {
        hotkeys := hotkeys.(stop := hotkey);
      }
      return true;
    }
  }

  /** Toggling keeps the names, so pack_vars keeps each pack once. */
  lemma ToggledDistinct(vars: seq<PackVar>, name: string)
    requires DistinctNames(vars)
    ensures DistinctNames(Toggled(vars, name))
  {
    var r := Toggled(vars, name);
    forall i, j | 0 <= i < j < |r| ensures r[i].name != r[j].name {
      assert r[i].name == Names(r)[i] == Names(vars)[i] == vars[i].name;
      assert r[j].name == Names(r)[j] == Names(vars)[j] == vars[j].name;
    }
  }

  /** The canonical pack names are distinct, so the initial pack_vars has each pack once. */
  lemma CanonicalNamesDistinct(vars: seq<PackVar>)
    requires Names(vars) == PackFullNames
    ensures DistinctNames(vars)
  {
    SecondLetters();
    forall i, j | 0 <= i < j < |vars| ensures vars[i].name != vars[j].name {
      assert vars[i].name == PackFullNames[i] && vars[j].name == PackFullNames[j];
      assert PackFullNames[i][1] != PackFullNames[j][1];
    }
  }
}
