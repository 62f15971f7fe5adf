/** A GUI group: a control that stacks its child controls vertically under
    a header, and can be minimized to the header alone. */
module GuiGroup {
  import opened Util
  import BaseGui

  type Control = BaseGui.Control
  type Control? = BaseGui.Control?

  /** The heights of the controls, in order. */
  function Heights(cs: seq<Control>): (hs: seq<real>)
    reads cs
    ensures |hs| == |cs|
    ensures forall i :: 0 <= i < |cs| ==> hs[i] == cs[i].b.height
  {
    seq(|cs|, i requires 0 <= i < |cs| reads cs => cs[i].b.height)
  }

  /** The names of the controls, in order. */
  function Names(cs: seq<Control>): (ns: seq<string>)
    reads cs
    ensures |ns| == |cs|
    ensures forall i :: 0 <= i < |cs| ==> ns[i] == cs[i].name
  {
    seq(|cs|, i requires 0 <= i < |cs| reads cs => cs[i].name)
  }

  /** The vertical space that controls of heights `hs` take, each followed
      by `spacing`. */
  function Extent(hs: seq<real>, spacing: real): real
  {
    if hs == [] then 0.0 else Extent(hs[..|hs| - 1], spacing) + hs[|hs| - 1] + spacing
  }

  /** Stacking two runs of controls takes the space of both. */
  lemma {:induction false} ExtentAppend(a: seq<real>, b: seq<real>, spacing: real)
    ensures Extent(a + b, spacing) == Extent(a, spacing) + Extent(b, spacing)
    decreases |b|
  {
    if b == [] {
      assert a + b == a;
    } else {
      assert (a + b)[..|a + b| - 1] == a + b[..|b| - 1];
      ExtentAppend(a, b[..|b| - 1], spacing);
    }
  }

  /** With non-negative heights and spacing, a longer run never takes less
      space. */
  lemma {:induction false} ExtentMonotone(hs: seq<real>, k: nat, spacing: real)
    requires k <= |hs| && spacing >= 0.0
    requires forall i :: 0 <= i < |hs| ==> hs[i] >= 0.0
    ensures Extent(hs[..k], spacing) <= Extent(hs, spacing)
    decreases |hs|
  {
    if k < |hs| {
      var init := hs[..|hs| - 1];
      assert init[..k] == hs[..k];
      ExtentMonotone(init, k, spacing);
    } else {
      assert hs[..k] == hs;
    }
  }

  /** The position of the first name equal to `name`, if any. */
  function FirstIndex(ns: seq<string>, name: string): (r: Option<nat>)
    ensures r.Some? ==> r.value < |ns| && ns[r.value] == name
    ensures r.Some? ==> forall j :: 0 <= j < r.value ==> ns[j] != name
  {
    if ns == [] then None
    else if ns[0] == name then Some(0)
    else match FirstIndex(ns[1..], name)
      case None => None
      case Some(i) => Some(i + 1)
  }

  /** No name matches exactly when the search finds none. */
  lemma {:induction false} FirstIndexNone(ns: seq<string>, name: string)
    ensures FirstIndex(ns, name).None? <==> forall j :: 0 <= j < |ns| ==> ns[j] != name
  {
    if ns != [] && ns[0] != name {
      FirstIndexNone(ns[1..], name);
      assert forall j :: 1 <= j < |ns| ==> ns[j] == ns[1..][j - 1];
    }
  }

  /** No control appears twice in the list. */
  predicate Distinct(cs: seq<Control>)
  {
    forall i, j :: 0 <= i < j < |cs| ==> cs[i] != cs[j]
  }

  class Group {
    var name: string
    var b: Rect
    var collection: seq<Control>
    var spacing: real
    var header: real
    var minimized: bool

    /** A fresh group: empty, not minimized, spacing 1 and a header of the
        default control height. */
    constructor ()
      ensures name == "" && b == Rect(0.0, 0.0, 0.0, 0.0) && collection == []
      ensures spacing == 1.0 && header == BaseGui.DEFAULT_HEIGHT as real && !minimized
    {
      name := "";
      b := Rect(0.0, 0.0, 0.0, 0.0);
      collection := [];
      minimized := false;
      spacing := 1.0;
      header := BaseGui.DEFAULT_HEIGHT as real;
    }

    /** Appends `element` below the current content: it is placed at
        (0, previous height), the group grows by its height and the spacing,
        and widens to it when it is wider. */
    method Add(element: Control)
      modifies this, element`b
      ensures collection == old(collection) + [element]
      ensures element.b == old(element.b).(x := 0.0, y := old(b.height))
      ensures b.height == old(b.height) + old(element.b.height) + spacing
      ensures b.width == (if old(b.width) < old(element.b.width) then old(element.b.width) else old(b.width))
      ensures b.x == old(b.x) && b.y == old(b.y)
      ensures name == old(name) && spacing == old(spacing) && header == old(header) && minimized == old(minimized)
    {
      collection := collection + [element];
      element.SetPosition(0.0, b.height);
      b := b.(height := b.height + element.GetHeight() + spacing);
      if b.width < element.GetWidth() {
        b := b.(width := element.GetWidth());
      }
    }

    /** Removes every child; the height shrinks to the header. */
    method Clear()
      modifies this`collection, this`b
      ensures collection == [] && b == old(b).(height := header + spacing)
    {
      collection := [];
      b := b.(height := header + spacing);
    }

    /** Collapses the group to its header; the children stay. */
    method Minimize()
      modifies this`minimized, this`b
      ensures minimized && b == old(b).(height := header + spacing)
    {
      minimized := true;
      b := b.(height := header + spacing);
    }

    /** Expands the group: every child's height and the spacing are added
        onto the current height, which is not reset first. */
    method Maximize()
      modifies this`minimized, this`b
      ensures !minimized
      ensures b == old(b).(height := old(b.height) + Extent(Heights(collection), spacing))
    {
      minimized := false;
      ghost var hs := Heights(collection);
      var i := 0;
      while i < |collection|
        invariant 0 <= i <= |collection| && !minimized
        invariant b == old(b).(height := old(b.height) + Extent(hs[..i], spacing))
      {
        assert hs[..i + 1][..i] == hs[..i];
        b := b.(height := b.height + collection[i].GetHeight() + spacing);
        i := i + 1;
      }
      assert hs[..i] == hs;
    }

    /** Lays the children out again below the header: each keeps its x and
        its size; when no child appears twice, child `k` is placed at the
        header, the spacing and the space of the children before it. The
        group's height becomes the end of the last child. */
    method SizeChangedCB()
      modifies this`b, collection
      ensures b == old(b).(height := header + spacing + Extent(old(Heights(collection)), spacing))
      ensures forall k :: 0 <= k < |collection| ==>
        collection[k].b.x == old(collection[k].b.x)
        && collection[k].b.width == old(collection[k].b.width)
        && collection[k].b.height == old(collection[k].b.height)
      ensures Distinct(collection) ==> forall k :: 0 <= k < |collection| ==>
        collection[k].b.y == header + spacing + Extent(old(Heights(collection))[..k], spacing)
    {
      ghost var hs := Heights(collection);
      ghost var cs := collection;
      ghost var xs := seq(|cs|, k requires 0 <= k < |cs| reads cs => cs[k].b.x);
      ghost var ws := seq(|cs|, k requires 0 <= k < |cs| reads cs => cs[k].b.width);
      assert hs[..0] == [];
      var y := LayOut(xs, ws, hs);
      assert hs[..|hs|] == hs;
      b := b.(height := y);
    }

    /** The loop of `sizeChangedCB`: places every child in turn and returns
        the end of the last one. */
    method LayOut(ghost xs: seq<real>, ghost ws: seq<real>, ghost hs: seq<real>) returns (y: real)
      requires LaidOut(0, header + spacing, xs, ws, hs)
      modifies collection
      ensures LaidOut(|collection|, y, xs, ws, hs)
    {
      y := header + spacing;
      var i := 0;
      while i < |collection|
        invariant LaidOut(i, y, xs, ws, hs)
      {
        y := PlaceChild(i, y, xs, ws, hs);
        i := i + 1;
      }
    }

    /** The first `i` children are laid out with `y` the top of the next one:
        every child keeps its x, width and height (`xs`, `ws`, `hs`), and
        when no child appears twice each of the first `i` sits below the
        header and the children before it. */
    ghost predicate LaidOut(i: int, y: real, xs: seq<real>, ws: seq<real>, hs: seq<real>)
      reads this, collection
    {
      && 0 <= i <= |collection| == |xs| == |ws| == |hs|
      && y == header + spacing + Extent(hs[..i], spacing)
      && (forall k :: 0 <= k < |collection| ==>
            collection[k].b.x == xs[k] && collection[k].b.width == ws[k] && collection[k].b.height == hs[k])
      && (Distinct(collection) ==> forall k :: 0 <= k < i ==>
            collection[k].b.y == header + spacing + Extent(hs[..k], spacing))
    }

    /** Moves child `i` to height `y`, keeping its x and its size, and
        returns the top of the next child. */
    method PlaceChild(i: nat, y: real, ghost xs: seq<real>, ghost ws: seq<real>, ghost hs: seq<real>)
      returns (next: real)
      requires i < |collection| && LaidOut(i, y, xs, ws, hs)
      modifies collection[i]
      ensures LaidOut(i + 1, next, xs, ws, hs)
    {
      var c := collection[i];
      c.SetPosition(c.GetPosition().0, y);
      assert hs[..i + 1][..i] == hs[..i];
      next := y + c.GetHeight() + spacing;
    }

    function GetNumControls(): (n: nat)
      reads this
      ensures n == |collection|
    {
      |collection|
    }

    /** The child at position `num`, or null past the end. */
    method GetControlAt(num: nat) returns (c: Control?)
      ensures num < |collection| ==> c == collection[num]
      ensures num >= |collection| ==> c == null
    {
      if num < |collection| {
        c := collection[num];
      } else {
        c := null;
      }
    }

    /** The first child named `ctrlName`, or null when there is none. */
    method GetControl(ctrlName: string) returns (c: Control?)
      ensures match FirstIndex(Names(collection), ctrlName)
        case None => c == null
        case Some(i) => c == collection[i]
    {
      var i := 0;
      while i < |collection|
        invariant 0 <= i <= |collection|
        invariant forall j :: 0 <= j < i ==> collection[j].name != ctrlName
      {
        if collection[i].GetName() == ctrlName {
          FirstAt(Names(collection), ctrlName, i);
          return collection[i];
        }
        i := i + 1;
      }
      FirstIndexNone(Names(collection), ctrlName);
      c := null;
    }

    /** The names of the children, in insertion order. */
    method GetControlNames() returns (names: seq<string>)
      ensures names == Names(collection)
    {
      names := [];
      var i := 0;
      while i < |collection|
        invariant 0 <= i <= |collection|
        invariant names == Names(collection)[..i]
      {
        names := names + [collection[i].GetName()];
        i := i + 1;
      }
    }

    /** `getControlType<ControlType>`: finds the first child named
        `ctrlName` and returns it when it casts to the asked type, that is
        when its kind is in `castable`, the kinds of that type and of the
        types derived from it. Otherwise a control of kind `kind`, the
        asked type itself, is created with that name and added, even when a
        control that does not cast already has the name. The children
        already there are not touched. */
    method GetControlType(kind: nat, castable: set<nat>, ctrlName: string) returns (c: Control)
      requires kind in castable
      modifies this
      ensures var found := FirstIndex(old(Names(collection)), ctrlName);
        if found.Some? && old(collection[found.value].kind) in castable then
          c == old(collection[found.value]) && collection == old(collection) && b == old(b)
        else
          fresh(c) && c.kind == kind && c.name == ctrlName
          && collection == old(collection) + [c]
          && c.b == Rect(0.0, old(b.height), 0.0, 0.0)
          && b.height == old(b.height) + spacing
          && b.width == (if old(b.width) < 0.0 then 0.0 else old(b.width))
          && b.x == old(b.x) && b.y == old(b.y)
      ensures c.kind in castable
      ensures spacing == old(spacing) && header == old(header) && minimized == old(minimized) && name == old(name)
    {
      var existing := GetControl(ctrlName);
      if existing != null && existing.kind in castable {
        return existing;
      }
      c := new BaseGui.Control(kind);
      c.SetName(ctrlName);
      Add(c);
    }
  }

  /** A match found at `i` after none before it is the first match. */
  lemma FirstAt(ns: seq<string>, name: string, i: nat)
    requires i < |ns| && ns[i] == name
    requires forall j :: 0 <= j < i ==> ns[j] != name
    ensures FirstIndex(ns, name) == Some(i)
  {
    FirstIndexNone(ns, name);
    var r := FirstIndex(ns, name);
    if r.Some? {
      assert r.value >= i && r.value <= i;
    }
  }
}
