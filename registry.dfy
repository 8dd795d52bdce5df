/**
 * LapisMine: the plugin's registry of mines, a list in creation order with
 * lookup by name ignoring case. Saving the list to files is not modelled.
 */
module Registry {

  import opened Wrappers
  import opened Host
  import opened Mines

  /** Character.toUpperCase and toLowerCase on the ASCII letters. */
  function UpperCase(c: char): char
  {
    if 'a' <= c <= 'z' then (c as int - 32) as char else c
  }

  function LowerCase(c: char): char
  {
    if 'A' <= c <= 'Z' then (c as int + 32) as char else c
  }

  /** The per-character test of String.equalsIgnoreCase. */
  predicate SameLetter(a: char, b: char)
  {
    a == b || UpperCase(a) == UpperCase(b) || LowerCase(a) == LowerCase(b)
  }

  /** String.equalsIgnoreCase: the same length and the same letters up to case. */
  predicate EqualsIgnoreCase(s: string, t: string)
  {
    |s| == |t| && forall i :: 0 <= i < |s| ==> SameLetter(s[i], t[i])
  }

  /** Two names match exactly when they have the same length and the same
      letters once upper-cased, so every name matches its upper-cased form. */
  lemma IgnoresCase(s: string, t: string)
    ensures EqualsIgnoreCase(s, t) <==> |s| == |t| && forall i :: 0 <= i < |s| ==> UpperCase(s[i]) == UpperCase(t[i])
    ensures EqualsIgnoreCase(s, seq(|s|, i requires 0 <= i < |s| => UpperCase(s[i])))
  {
  }

  /** The matching is symmetric, so the order of the operands of equalsIgnoreCase does not matter. */
  lemma EqualsIgnoreCaseSymmetric(s: string, t: string)
    requires EqualsIgnoreCase(s, t)
    ensures EqualsIgnoreCase(t, s)
  {
  }

  /** The index of the first mine in `ms` whose name matches `name`. */
  function FirstMatch(ms: seq<Mine>, name: string): (r: Option<nat>)
    ensures r.Some? ==> r.value < |ms| && EqualsIgnoreCase(ms[r.value].name, name)
    ensures r.Some? ==> forall j :: 0 <= j < r.value ==> !EqualsIgnoreCase(ms[j].name, name)
    ensures r.None? <==> forall j :: 0 <= j < |ms| ==> !EqualsIgnoreCase(ms[j].name, name)
  {
    if ms == [] then None
    else if EqualsIgnoreCase(ms[0].name, name) then Some(0)
    else match FirstMatch(ms[1..], name)
      case None => None
      case Some(i) => Some(i + 1)
  }

  /** No two mines share a name ignoring case. */
  ghost predicate DistinctNames(ms: seq<Mine>)
  {
    forall i, j :: 0 <= i < j < |ms| ==> !EqualsIgnoreCase(ms[i].name, ms[j].name)
  }

  /** A mine appended under a name no earlier mine has is the one found for that name. */
  lemma AppendedIsFound(ms: seq<Mine>, m: Mine, name: string)
    requires FirstMatch(ms, name).None? && EqualsIgnoreCase(m.name, name)
    ensures FirstMatch(ms + [m], name) == Some(|ms|)
  {
    assert (ms + [m])[|ms|] == m;
    assert forall j :: 0 <= j < |ms| ==> (ms + [m])[j] == ms[j];
  }

  /** Appending a mine leaves every earlier match where it was. */
  lemma AppendKeepsMatch(ms: seq<Mine>, m: Mine, name: string)
    requires FirstMatch(ms, name).Some?
    ensures FirstMatch(ms + [m], name) == FirstMatch(ms, name)
  {
    var i := FirstMatch(ms, name).value;
    assert (ms + [m])[i] == ms[i];
    assert forall j :: 0 <= j < |ms| ==> (ms + [m])[j] == ms[j];
  }

  /** List.remove(Object): drop the first occurrence of `m`, if any. */
  function RemoveFirst(ms: seq<Mine>, m: Mine): (r: seq<Mine>)
    ensures m !in ms ==> r == ms
    ensures m in ms ==> |r| == |ms| - 1 && multiset(r) == multiset(ms) - multiset{m}
  {
    if ms == [] then []
    else if ms[0] == m then
      assert ms == [ms[0]] + ms[1..];
      ms[1..]
    else
      assert ms == [ms[0]] + ms[1..];
      [ms[0]] + RemoveFirst(ms[1..], m)
  }

  class LapisMine {
    /** mines, in the order they were added. */
    var mines: seq<Mine>
    /** fillMaterial: what new compositions are completed with. */
    const fill: Material

    constructor (fill: Material)
      ensures mines == [] && this.fill == fill
    {
      mines := [];
      this.fill := fill;
    }

    /** getMine: the first mine whose name equals `name` ignoring case, null if none. */
    method GetMine(name: string) returns (m: Mine?)
      ensures FirstMatch(mines, name).None? ==> m == null
      ensures FirstMatch(mines, name).Some? ==> m == mines[FirstMatch(mines, name).value]
    {
      var i := 0;
      while i < |mines|
        invariant 0 <= i <= |mines|
        invariant forall j :: 0 <= j < i ==> !EqualsIgnoreCase(mines[j].name, name)
        decreases |mines| - i
      {
        if EqualsIgnoreCase(mines[i].name, name) {
          return mines[i];
        }
        i := i + 1;
      }
      return null;
    }

    /** createMine: an empty mine under a name no mine has yet, ignoring case.
        Saving the list afterwards is not modelled. */
    method CreateMine(name: string, l1: Location, l2: Location)
      modifies this
      ensures FirstMatch(old(mines), name).Some? ==> mines == old(mines)
      ensures FirstMatch(old(mines), name).None? ==>
        && |mines| == |old(mines)| + 1 && mines[..|old(mines)|] == old(mines)
        && fresh(mines[|old(mines)|]) && mines[|old(mines)|].name == name
        && mines[|old(mines)|].l1 == l1 && mines[|old(mines)|].l2 == l2
        && mines[|old(mines)|].composition.materials == map[] && mines[|old(mines)|].composition.fill == fill
        && mines[|old(mines)|].surface == None && mines[|old(mines)|].resetFrequency == 15
        && !mines[|old(mines)|].replaceOnlyAir && mines[|old(mines)|].teleport == DefaultTeleport(l1, l2)
      ensures old(DistinctNames(mines)) ==> DistinctNames(mines)
    {
      var existing := GetMine(name);
      if existing != null {
        return;
      }
      var m := new Mine.Empty(name, l1, l2, fill);
      mines := mines + [m];
      assert mines[..|old(mines)|] == old(mines);
    }

    /** addMine: append, with no check on the name. */
    method AddMine(m: Mine)
      modifies this
      ensures mines == old(mines) + [m]
    {
      mines := mines + [m];
    }

    /** removeMine: drop the first occurrence of `m`, keeping the rest in order. */
    method RemoveMine(m: Mine)
      modifies this
      ensures mines == RemoveFirst(old(mines), m)
    {
      var i := 0;
      while i < |mines| && mines[i] != m
        invariant 0 <= i <= |mines|
        invariant m !in mines[..i]
        decreases |mines| - i
      {
        assert mines[..i + 1] == mines[..i] + [mines[i]];
        i := i + 1;
      }
      if i == |mines| {
        assert mines[..i] == mines;
        return;
      }
      RemoveAt(mines, m, i);
      mines := mines[..i] + mines[i + 1..];
    }
  }

  /** Removing the first occurrence at its index is RemoveFirst: the mines
      before it and after it stay, in order. */
  lemma {:induction false} RemoveAt(ms: seq<Mine>, m: Mine, i: nat)
    requires i < |ms| && ms[i] == m && m !in ms[..i]
    ensures RemoveFirst(ms, m) == ms[..i] + ms[i + 1..]
  {
    if i > 0 {
      var rest := ms[1..];
      assert ms[0] in ms[..i];
      assert rest[..i - 1] == ms[1..i];
      RemoveAt(rest, m, i - 1);
      DropAtTail(ms, i);
    }
  }

  /** Dropping index `i` > 0 keeps the head in front of `ms[1..]` with index
      `i - 1` dropped. */
  lemma DropAtTail(ms: seq<Mine>, i: nat)
    requires 0 < i < |ms|
    ensures ms[..i] + ms[i + 1..] == [ms[0]] + (ms[1..][..i - 1] + ms[1..][i..])
  {
    assert ms[..i] == [ms[0]] + ms[1..][..i - 1];
    assert ms[i + 1..] == ms[1..][i..];
  }
}
