/**
 * The variable picker of `src/components/VariableSelector.js`: one toggle
 * button per option, pressed when its variable is selected, and the update
 * a click hands to `setVariables`.
 */
module VariableSelector {
  import opened Sequences

  /** The buttons, in display order (dust is commented out in the component). */
  const Options: seq<string> := ["Temperature", "Rainfall", "Wind Speed", "Humidity"]

  /**
   * The click update for variable `v`: remove every occurrence when it is
   * selected, append it at the end otherwise.
   */
  function Toggle(prev: seq<string>, v: string): (next: seq<string>)
    ensures v in next <==> v !in prev
    ensures forall x :: x != v ==> (x in next <==> x in prev)
  {
    if v in prev then RemoveAll(prev, v) else prev + [v]
  }

  /** Selecting an absent variable adds it as the last element, one longer. */
  lemma ToggleAppends(prev: seq<string>, v: string)
    requires v !in prev
    ensures Toggle(prev, v) == prev + [v]
    ensures |Toggle(prev, v)| == |prev| + 1
    ensures Toggle(prev, v)[|prev|] == v
  {
  }

  /**
   * Deselecting a variable cuts it out and leaves the others in their
   * relative order: a selection `a + [v] + b` without other copies of `v`
   * becomes `a + b`.
   */
  lemma ToggleRemovesInPlace(a: seq<string>, v: string, b: seq<string>)
    requires v !in a && v !in b
    ensures Toggle(a + [v] + b, v) == a + b
  {
    RemoveAllAppend(a + [v], b, v);
    RemoveAllAppend(a, [v], v);
    RemoveAllAbsent(a, v);
    RemoveAllAbsent(b, v);
    assert RemoveAll([v], v) == [];
    assert a + [] == a;
  }

  /** Two clicks on a variable that was not selected give the selection back. */
  lemma ToggleTwice(prev: seq<string>, v: string)
    requires v !in prev
    ensures Toggle(Toggle(prev, v), v) == prev
  {
    ToggleRemovesInPlace(prev, v, []);
    assert prev + [v] + [] == prev + [v];
    assert prev + [] == prev;
  }

  /** A selection without repeats stays without repeats. */
  lemma ToggleKeepsNoDup(prev: seq<string>, v: string)
    requires NoDup(prev)
    ensures NoDup(Toggle(prev, v))
  {
    if v in prev {
      RemoveAllNoDup(prev, v);
    }
  }

  /** The `aria-pressed` state of every button: whether its variable is selected. */
  function Pressed(variables: seq<string>): (pressed: seq<bool>)
    ensures |pressed| == |Options|
  {
    seq(|Options|, i requires 0 <= i < |Options| => Options[i] in variables)
  }

  /**
   * A click on one button flips that button's pressed state and leaves every
   * other button as it was.
   */
  lemma ClickFlipsOneButton(prev: seq<string>, i: nat, j: nat)
    requires i < |Options| && j < |Options|
    ensures Pressed(Toggle(prev, Options[i]))[i] == !Pressed(prev)[i]
    ensures j != i ==> Pressed(Toggle(prev, Options[i]))[j] == Pressed(prev)[j]
  {
    assert j != i ==> Options[j] != Options[i];
  }
}
