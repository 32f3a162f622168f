/** The ordered list of type names a mean-squared-displacement compute writes
    files for, maintained by `addType` and `deleteType`. */
module TypeSelection {
  import opened Wrappers

  datatype SelectionError = CannotRemoveAbsentType(name: string)

  predicate NoDuplicates(names: seq<string>) {
    forall i, j | 0 <= i < j < |names| :: names[i] != names[j]
  }

  /** `std::find`: the position of the first `name` in `names`, `None` for `end()`. */
  function IndexOf(names: seq<string>, name: string): (r: Option<nat>)
    ensures r.None? <==> name !in names
    ensures r.Some? ==> r.value < |names| && names[r.value] == name && name !in names[..r.value]
  {
    if names == [] then None
    else if names[0] == name then Some(0)
    else
      match IndexOf(names[1..], name)
      case None => None
      case Some(i) =>
        assert names[..i + 1] == [names[0]] + names[1..][..i];
        Some(i + 1)
  }

  /** `addType`: appends `name` unless it is already selected. */
  function AddType(names: seq<string>, name: string): (r: seq<string>)
    ensures name in r
    ensures forall x :: x in r <==> x in names || x == name
    ensures |names| <= |r| <= |names| + 1 && r[..|names|] == names
    ensures name in names ==> r == names
    ensures NoDuplicates(names) ==> NoDuplicates(r)
  {
    match IndexOf(names, name)
    case Some(_) => names
    case None => names + [name]
  }

  /** `deleteType`: removes the first occurrence of `name`; an absent name is an error
      and the list is left as it was. */
  function DeleteType(names: seq<string>, name: string): (r: Result<seq<string>, SelectionError>)
    ensures r.Failure? <==> name !in names
    ensures r.Failure? ==> r.error == CannotRemoveAbsentType(name)
    ensures r.Success? ==> |r.value| == |names| - 1
    ensures r.Success? ==> exists i | 0 <= i < |names| ::
      names[i] == name && name !in names[..i] && r.value == names[..i] + names[i + 1..]
  {
    match IndexOf(names, name)
    case None => Failure(CannotRemoveAbsentType(name))
    case Some(i) => Success(names[..i] + names[i + 1..])
  }

  /** On a duplicate-free list, deleting a name removes it and only it. */
  lemma DeleteRemovesExactlyThatName(names: seq<string>, name: string)
    requires NoDuplicates(names) && name in names
    ensures DeleteType(names, name).Success?
    ensures var r := DeleteType(names, name).value;
      NoDuplicates(r) && forall x :: x in r <==> x in names && x != name
  {
    var i :| 0 <= i < |names| && names[i] == name && name !in names[..i]
      && DeleteType(names, name).value == names[..i] + names[i + 1..];
    var r := names[..i] + names[i + 1..];
    assert forall k | 0 <= k < |r| :: r[k] == names[if k < i then k else k + 1];
    forall x
      ensures x in r <==> x in names && x != name
    {
      if x in names && x != name {
        var k :| 0 <= k < |names| && names[k] == x;
        assert r[if k < i then k else k - 1] == x;
      }
    }
  }

  /** Deleting a name that was just added gives back the list it was added to. */
  lemma DeleteUndoesAdd(names: seq<string>, name: string)
    requires name !in names
    ensures DeleteType(AddType(names, name), name) == Success(names)
  {
    var added := names + [name];
    assert IndexOf(added, name) == Some(|names|) by {
      assert added[..|names|] == names;
    }
    assert added[..|names|] + added[|names| + 1..] == names;
  }

  /** On a duplicate-free list, adding a name and then deleting it leaves a list
      without that name, whether or not it was selected before. */
  lemma AddThenDeleteDropsName(names: seq<string>, name: string)
    requires NoDuplicates(names)
    ensures DeleteType(AddType(names, name), name).Success?
    ensures name !in DeleteType(AddType(names, name), name).value
  {
    DeleteRemovesExactlyThatName(AddType(names, name), name);
  }
}
