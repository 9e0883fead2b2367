/** Building Qt menus from lists of action dictionaries (`populate_menu`)
    and the napari menu base class with its instance registry, enable/disable
    refresh and clean-up (`NapariMenu`).

    A menu is an object whose list of actions the operations change in
    place; the actions themselves are values.  Callables that the
    dictionaries carry (slots, `enabled` predicates, emitters) are
    represented by identifiers; evaluating an `enabled` predicate is a
    function parameter. */
module MenuUtil {
  import opened Wrappers

  /** One action dictionary.  A key that is absent is `None`.  The falsy
      entries of the list (an empty dictionary, or `None`) are the
      dictionaries with no key at all. */
  datatype ItemDict = ItemDict(
    text: Option<string>,
    menu: Option<string>,           // the submenu's title, or a ready-made submenu
    items: seq<ItemDict>,           // `ax.get("items", [])`: absent is []
    slot: Option<nat>,
    shortcut: Option<string>,
    statusTip: Option<string>,
    menuRole: Option<nat>,
    checkable: Option<bool>,
    checked: Option<bool>,
    checkOn: Option<nat>,           // the emitter that drives the check state
    when: Option<bool>,
    enabled: Option<nat>)           // the `enabled(event)` predicate
  {
    /** `not ax`: a dictionary without keys. */
    predicate IsEmpty() {
      text.None? && menu.None? && items == [] && slot.None? && shortcut.None?
      && statusTip.None? && menuRole.None? && checkable.None? && checked.None?
      && checkOn.None? && when.None? && enabled.None?
    }

    /** `ax.get("when", True)` */
    predicate Shown() {
      when.GetOr(true)
    }

    /** `ax.get("checkable")` is truthy */
    predicate IsCheckable() {
      checkable == Some(true)
    }
  }

  /** What a menu holds, in order.  Qt's defaults are: not checkable, not
      checked, enabled, no data, the default menu role. */
  datatype Action =
    | Separator
    | Submenu(title: string, children: seq<Action>)
    | Item(text: string, slot: Option<nat>, shortcut: string, statusTip: string,
           menuRole: Option<nat>, checkable: bool, checked: bool,
           checkOn: Option<nat>, data: Option<ItemDict>, enabled: bool)

  /** The action `populate_menu` adds for a dictionary that is shown, is not
      a submenu and has a text. */
  function ItemAction(ax: ItemDict): (a: Action)
    requires ax.text.Some?
    ensures a.Item? && a.text == ax.text.value && a.data == Some(ax) && a.enabled
    ensures a.shortcut == ax.shortcut.GetOr("") && a.statusTip == ax.statusTip.GetOr("")
    ensures a.slot == ax.slot && a.menuRole == ax.menuRole
    ensures a.checkable <==> ax.IsCheckable()
    ensures a.checked <==> ax.IsCheckable() && ax.checked == Some(true)
    ensures a.checkOn.Some? ==> a.checkable && a.checkOn == ax.checkOn
    ensures ax.IsCheckable() ==> a.checkOn == ax.checkOn
  {
    var checkable := ax.IsCheckable();
    Item(ax.text.value, ax.slot, ax.shortcut.GetOr(""), ax.statusTip.GetOr(""),
         ax.menuRole, checkable, checkable && ax.checked.GetOr(false),
         if checkable then ax.checkOn else None, Some(ax), true)
  }

  /** The actions `populate_menu(menu, entries)` appends to `menu`, and
      whether it returned normally (false: a shown, non-submenu dictionary
      without "text" raised `KeyError`, after the actions before it were
      added; a submenu that raised stays in the menu, partly filled). */
  function Populate(entries: seq<ItemDict>): (r: (seq<Action>, bool))
    decreases entries
    ensures |r.0| <= |entries|
  {
    if |entries| == 0 then ([], true)
    else
      var ax := entries[0];
      if ax.IsEmpty() then
        var (rest, ok) := Populate(entries[1..]);
        ([Separator] + rest, ok)
      else if !ax.Shown() then
        Populate(entries[1..])
      else if ax.menu.Some? then
        var (children, subOk) := Populate(ax.items);
        var sub := Submenu(ax.menu.value, children);
        if !subOk then ([sub], false)
        else
          var (rest, ok) := Populate(entries[1..]);
          ([sub] + rest, ok)
      else if ax.text.None? then ([], false)
      else
        var (rest, ok) := Populate(entries[1..]);
        ([ItemAction(ax)] + rest, ok)
  }

  /** Every non-empty, shown dictionary names a submenu or has a text, at
      every depth: the lists `populate_menu` goes through without raising. */
  predicate WellFormed(entries: seq<ItemDict>)
    decreases entries
  {
    forall i :: 0 <= i < |entries| ==>
      var ax := entries[i];
      ax.IsEmpty() || !ax.Shown() || (ax.menu.Some? && WellFormed(ax.items)) || (ax.menu.None? && ax.text.Some?)
  }

  /** How many actions a well-formed list adds to the menu it populates: one per
      shown entry (an empty dictionary has no "when", so it is shown too). */
  function ShownCount(entries: seq<ItemDict>): nat
  {
    if |entries| == 0 then 0
    else (if entries[0].Shown() then 1 else 0) + ShownCount(entries[1..])
  }

  /** Populating with `a + b` is populating with `a` and then, if that
      returned normally, with `b`: the entries are handled one after the
      other, in list order. */
  lemma {:induction false} PopulateConcat(a: seq<ItemDict>, b: seq<ItemDict>)
    ensures Populate(a + b) ==
      if Populate(a).1 then (Populate(a).0 + Populate(b).0, Populate(b).1) else Populate(a)
    decreases a
  {
    if |a| == 0 {
      assert a + b == b;
      assert Populate(a) == ([], true);
      assert [] + Populate(b).0 == Populate(b).0;
    } else {
      var ax := a[0];
      assert (a + b)[0] == ax;
      assert (a + b)[1..] == a[1..] + b;
      PopulateConcat(a[1..], b);
      var (restA, okA) := Populate(a[1..]);
      var (restB, okB) := Populate(b);
      if ax.IsEmpty() || (ax.Shown() && ((ax.menu.Some? && Populate(ax.items).1) || (ax.menu.None? && ax.text.Some?))) {
        var first := Populate(a).0[0];
        assert Populate(a).0 == [first] + restA;
        if okA {
          assert [first] + (restA + restB) == ([first] + restA) + restB;
        }
      }
    }
  }

  /** What a single dictionary contributes: a separator for an empty one,
      nothing for one whose "when" is false, a submenu holding its "items"
      for one with "menu", a `KeyError` for one without "text", and
      otherwise the action `ItemAction` describes. */
  lemma PopulateOne(ax: ItemDict)
    ensures ax.IsEmpty() ==> Populate([ax]) == ([Separator], true)
    ensures !ax.IsEmpty() && !ax.Shown() ==> Populate([ax]) == ([], true)
    ensures !ax.IsEmpty() && ax.Shown() && ax.menu.Some? ==>
      Populate([ax]) == ([Submenu(ax.menu.value, Populate(ax.items).0)], Populate(ax.items).1)
    ensures !ax.IsEmpty() && ax.Shown() && ax.menu.None? && ax.text.None? ==>
      Populate([ax]) == ([], false)
    ensures !ax.IsEmpty() && ax.Shown() && ax.menu.None? && ax.text.Some? ==>
      Populate([ax]) == ([ItemAction(ax)], true)
  {
    assert [ax][1..] == [];
    assert [ax][0] == ax;
    assert Populate([]) == ([], true);
    assert [Separator] + [] == [Separator];
    if ax.menu.Some? {
      assert [Submenu(ax.menu.value, Populate(ax.items).0)] + [] == [Submenu(ax.menu.value, Populate(ax.items).0)];
    }
    if ax.text.Some? {
      assert [ItemAction(ax)] + [] == [ItemAction(ax)];
    }
  }

  /** A well-formed list never raises, and adds one action per entry that
      is empty (a separator) or shown (a submenu or an action). */
  lemma {:induction false} PopulateWellFormed(entries: seq<ItemDict>)
    requires WellFormed(entries)
    ensures Populate(entries).1
    ensures |Populate(entries).0| == ShownCount(entries)
    decreases entries
  {
    if |entries| > 0 {
      var ax := entries[0];
      assert WellFormed(entries[1..]) by {
        forall i | 0 <= i < |entries[1..]|
          ensures var e := entries[1..][i];
            e.IsEmpty() || !e.Shown() || (e.menu.Some? && WellFormed(e.items)) || (e.menu.None? && e.text.Some?)
        {
          assert entries[1..][i] == entries[i + 1];
        }
      }
      PopulateWellFormed(entries[1..]);
      if !ax.IsEmpty() && ax.Shown() && ax.menu.Some? {
        PopulateWellFormed(ax.items);
      }
    }
  }

  /** Every action made from a dictionary carries that dictionary as its
      data, and the dictionary is one of the entries. */
  lemma {:induction false} PopulateCarriesData(entries: seq<ItemDict>)
    ensures forall a :: a in Populate(entries).0 && a.Item? ==>
      a.data.Some? && a.data.value in entries && a.data.value.text == Some(a.text)
    decreases entries
  {
    if |entries| > 0 {
      PopulateCarriesData(entries[1..]);
      forall a | a in Populate(entries).0 && a.Item?
        ensures a.data.Some? && a.data.value in entries && a.data.value.text == Some(a.text)
      {
        if a !in Populate(entries[1..]).0 {
          assert a == ItemAction(entries[0]);
        }
      }
    }
  }

  /** `list.index(x)`: where `x` first occurs. */
  function IndexOf<T(==)>(s: seq<T>, x: T): (k: nat)
    requires x in s
    ensures k < |s| && s[k] == x && x !in s[..k]
  {
    if s[0] == x then 0
    else
      var k := 1 + IndexOf(s[1..], x);
      assert s[..k] == [s[0]] + s[1..][..k - 1];
      k
  }

  /** `list.remove(x)`: the list cut at the first occurrence of `x`, which is
      one copy of `x` fewer and otherwise the same elements, in the same order. */
  function RemoveFirst<T(==)>(s: seq<T>, x: T): (r: seq<T>)
    requires x in s
    ensures |r| == |s| - 1
    ensures multiset(r) == multiset(s) - multiset{x}
    ensures r[..IndexOf(s, x)] == s[..IndexOf(s, x)]
    ensures forall j :: IndexOf(s, x) <= j < |r| ==> r[j] == s[j + 1]
  {
    var k := IndexOf(s, x);
    assert s == s[..k] + [x] + s[k + 1..];
    s[..k] + s[k + 1..]
  }

  /** `NapariMenu.update`: an action whose data is a (non-empty) dictionary
      is enabled exactly when that dictionary's `enabled` predicate holds for
      the event, or always when it has none; `isEnabled(p)` is
      `bool(p(event))`.  Separators, submenus and actions without data keep
      their state. */
  function Refresh(a: Action, isEnabled: nat -> bool): (r: Action)
    ensures !(a.Item? && a.data.Some? && !a.data.value.IsEmpty()) ==> r == a
    ensures a.Item? ==> r.Item? && r.(enabled := true) == a.(enabled := true)
    ensures a.Item? && a.data.Some? && !a.data.value.IsEmpty() ==>
      (r.enabled <==> a.data.value.enabled.None? || isEnabled(a.data.value.enabled.value))
  {
    if a.Item? && a.data.Some? && !a.data.value.IsEmpty() then
      var d := a.data.value;
      a.(enabled := if d.enabled.Some? then isEnabled(d.enabled.value) else true)
    else a
  }

  /** Refreshing twice for the same event is refreshing once. */
  lemma RefreshIdempotent(a: Action, isEnabled: nat -> bool)
    ensures Refresh(Refresh(a, isEnabled), isEnabled) == Refresh(a, isEnabled)
  {
  }

  /** `NapariMenu._destroy`, per action: its data becomes `None`. */
  function ClearData(a: Action): (r: Action)
    ensures a.Item? ==> r.Item? && r.data.None? && r.(data := None) == a.(data := None)
    ensures !a.Item? ==> r == a
  {
    if a.Item? then a.(data := None) else a
  }

  /** After clean-up no action reacts to `update` any more. */
  lemma ClearedIgnoresRefresh(a: Action, isEnabled: nat -> bool)
    ensures Refresh(ClearData(a), isEnabled) == ClearData(a)
  {
  }

  /** An emitter given as "check_on" fired with `value`: every action
      connected to it, at any depth, takes `value` as its check state. */
  function Emitted(actions: seq<Action>, emitter: nat, value: bool): (r: seq<Action>)
    ensures |r| == |actions|
    ensures forall i :: 0 <= i < |actions| && actions[i].Item? ==>
      r[i] == if actions[i].checkOn == Some(emitter) then actions[i].(checked := value) else actions[i]
    ensures forall i :: 0 <= i < |actions| && actions[i].Separator? ==> r[i] == Separator
    ensures forall i :: 0 <= i < |actions| && actions[i].Submenu? ==>
      r[i] == Submenu(actions[i].title, Emitted(actions[i].children, emitter, value))
    decreases actions
  {
    if |actions| == 0 then []
    else
      var a := actions[0];
      var first :=
        match a
        case Separator => a
        case Submenu(t, cs) => Submenu(t, Emitted(cs, emitter, value))
        case Item(_, _, _, _, _, _, _, _, _, _) =>
          if a.checkOn == Some(emitter) then a.(checked := value) else a;
      [first] + Emitted(actions[1..], emitter, value)
  }

  /** The process-wide list of live napari menus (`NapariMenu._INSTANCES`). */
  class MenuRegistry {
    var instances: seq<Menu>

    constructor()
      ensures instances == []
    {
      instances := [];
    }
  }

  /** A Qt menu: its title and its actions, in order. */
  class Menu {
    var title: string
    var actions: seq<Action>

    /** A plain `QMenu`, as `menu.addMenu(title)` creates for a submenu. */
    constructor Plain(title: string)
      ensures this.title == title && actions == []
    {
      this.title := title;
      actions := [];
    }

    /** `NapariMenu(...)`: an empty menu that joins the registry. */
    constructor (title: string, registry: MenuRegistry)
      modifies registry`instances
      ensures this.title == title && actions == []
      ensures registry.instances == old(registry.instances) + [this]
    {
      this.title := title;
      actions := [];
      new;
      registry.instances := registry.instances + [this];
    }

    /** `NapariMenu.update(event)`. */
    method Update(isEnabled: nat -> bool)
      modifies this`actions
      ensures |actions| == |old(actions)|
      ensures forall i :: 0 <= i < |actions| ==> actions[i] == Refresh(old(actions)[i], isEnabled)
    {
      var i := 0;
      while i < |actions|
        invariant 0 <= i <= |actions| == |old(actions)|
        invariant forall j :: 0 <= j < i ==> actions[j] == Refresh(old(actions)[j], isEnabled)
        invariant forall j :: i <= j < |actions| ==> actions[j] == old(actions)[j]
      {
        var a := actions[i];
        if a.Item? && a.data.Some? && !a.data.value.IsEmpty() {
          var enabled := if a.data.value.enabled.Some? then isEnabled(a.data.value.enabled.value) else true;
          actions := actions[i := a.(enabled := enabled)];
        }
        i := i + 1;
      }
    }

    /** `NapariMenu._destroy()`: every action's data is dropped, and the
        menu leaves the registry if it is in it (its first occurrence). */
    method Destroy(registry: MenuRegistry)
      modifies this`actions, registry`instances
      ensures |actions| == |old(actions)|
      ensures forall i :: 0 <= i < |actions| ==> actions[i] == ClearData(old(actions)[i])
      ensures this in old(registry.instances) ==>
        registry.instances == RemoveFirst(old(registry.instances), this)
      ensures this !in old(registry.instances) ==> registry.instances == old(registry.instances)
    {
      var i := 0;
      while i < |actions|
        invariant 0 <= i <= |actions| == |old(actions)|
        invariant forall j :: 0 <= j < i ==> actions[j] == ClearData(old(actions)[j])
        invariant forall j :: i <= j < |actions| ==> actions[j] == old(actions)[j]
        invariant registry.instances == old(registry.instances)
      {
        if actions[i].Item? {
          actions := actions[i := actions[i].(data := None)];
        }
        i := i + 1;
      }
      if this in registry.instances {
        registry.instances := RemoveFirst(registry.instances, this);
      }
    }

    /** The emitter of some "check_on" entry fired with `value`. */
    method Emit(emitter: nat, value: bool)
      modifies this`actions
      ensures actions == Emitted(old(actions), emitter, value)
    {
      actions := Emitted(actions, emitter, value);
    }
  }

  /** `populate_menu(menu, entries)`: appends to the menu's actions what
      `Populate` describes; `ok` is false where the Python code raises
      `KeyError`. */
  method PopulateMenu(menu: Menu, entries: seq<ItemDict>) returns (ok: bool)
    modifies menu`actions
    ensures menu.actions == old(menu.actions) + Populate(entries).0
    ensures ok == Populate(entries).1
    decreases entries
  {
    var i := 0;
    while i < |entries|
      invariant 0 <= i <= |entries|
      invariant old(menu.actions) + Populate(entries).0 == menu.actions + Populate(entries[i..]).0
      invariant Populate(entries).1 == Populate(entries[i..]).1
    {
      var ax := entries[i];
      assert entries[i..][1..] == entries[i + 1..];
      ghost var rest := Populate(entries[i + 1..]).0;
      if ax.IsEmpty() {
        assert menu.actions + Populate(entries[i..]).0 == (menu.actions + [Separator]) + rest;
        menu.actions := menu.actions + [Separator];
      } else if !ax.Shown() {
      } else if ax.menu.Some? {
        var sub := new Menu.Plain(ax.menu.value);
        var subOk := PopulateMenu(sub, ax.items);
        assert [] + Populate(ax.items).0 == Populate(ax.items).0;
        var entry := Submenu(sub.title, sub.actions);
        assert entry == Submenu(ax.menu.value, Populate(ax.items).0);
        if !subOk {
          menu.actions := menu.actions + [entry];
          return false;
        }
        assert menu.actions + Populate(entries[i..]).0 == (menu.actions + [entry]) + rest;
        menu.actions := menu.actions + [entry];
      } else if ax.text.None? {
        return false;
      } else {
        assert menu.actions + Populate(entries[i..]).0 == (menu.actions + [ItemAction(ax)]) + rest;
        menu.actions := menu.actions + [ItemAction(ax)];
      }
      i := i + 1;
    }
    assert entries[i..] == [];
    return true;
  }
}
