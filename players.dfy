/** The list of saved player names: most recently added first, changed by
    add-if-absent and delete-by-index, written to disk cut to five entries. */
module Players {

  /** How many names the player file keeps. */
  const MaxSaved: nat := 5

  predicate Distinct(names: seq<string>)
  {
    forall i, j :: 0 <= i < j < |names| ==> names[i] != names[j]
  }

  /** The list with entry i deleted. */
  function RemoveAt(names: seq<string>, i: nat): (r: seq<string>)
    requires i < |names|
    ensures |r| == |names| - 1
  {
    names[..i] + names[i + 1..]
  }

  /** The names before entry i stay in place, those after it move up by one,
      and exactly one occurrence of the deleted name is gone. */
  lemma RemoveAtShifts(names: seq<string>, i: nat)
    requires i < |names|
    ensures forall j :: 0 <= j < i ==> RemoveAt(names, i)[j] == names[j]
    ensures forall j :: i <= j < |names| - 1 ==> RemoveAt(names, i)[j] == names[j + 1]
    ensures multiset(RemoveAt(names, i)) + multiset{names[i]} == multiset(names)
  {
    assert names == names[..i] + [names[i]] + names[i + 1..];
  }

  /** Deleting from a list without duplicates removes that name altogether. */
  lemma RemoveAtForgets(names: seq<string>, i: nat)
    requires i < |names| && Distinct(names)
    ensures Distinct(RemoveAt(names, i))
    ensures names[i] !in RemoveAt(names, i)
    ensures forall n :: n in RemoveAt(names, i) <==> n in names && n != names[i]
  {
    RemoveAtShifts(names, i);
    var r := RemoveAt(names, i);
    forall n | n in names && n != names[i]
      ensures n in r
    {
      var j :| 0 <= j < |names| && names[j] == n;
      if j < i { assert r[j] == n; } else { assert r[j - 1] == n; }
    }
  }

  /** The list after a player finishes entering a name: the name goes to the
      front unless it is already there somewhere. */
  function Remember(names: seq<string>, name: string): (r: seq<string>)
    ensures name in r
    ensures r == names || r == [name] + names
  {
    if name in names then names else [name] + names
  }

  /** Remembering adds no name but the new one, lengthens the list exactly
      when the name is new, and brings in no duplicate. */
  lemma RememberAddsOnlyTheName(names: seq<string>, name: string)
    ensures forall n :: n in Remember(names, name) <==> n in names || n == name
    ensures |Remember(names, name)| == |names| <==> name in names
    ensures Distinct(names) ==> Distinct(Remember(names, name))
  {
  }

  /** What the player file receives: the first five names, in order. */
  function Persisted(names: seq<string>): (r: seq<string>)
    ensures |r| == if |names| < MaxSaved then |names| else MaxSaved
    ensures r <= names
  {
    names[..if |names| < MaxSaved then |names| else MaxSaved]
  }

  /** The written list has no duplicates when the list in memory has none. */
  lemma PersistedDistinct(names: seq<string>)
    requires Distinct(names)
    ensures Distinct(Persisted(names))
  {
  }

  /** Writing a list that was read back from the file writes the same list. */
  lemma PersistedIdempotent(names: seq<string>)
    ensures Persisted(Persisted(names)) == Persisted(names)
  {
  }
}
