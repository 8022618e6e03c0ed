/**
 * The driver selector's `toggle`: a selected id is removed (every copy of
 * it), an unselected id is appended at the end.
 */
module DriverSelector {

  /** `selected.filter(s => s !== id)`. */
  function Without(selected: seq<string>, id: string): (r: seq<string>)
    ensures |r| <= |selected|
    ensures forall s :: s in r <==> s in selected && s != id
  {
    if selected == [] then []
    else (if selected[0] == id then [] else [selected[0]]) + Without(selected[1..], id)
  }

  /** The list handed to `onChange` when `id` is toggled. */
  function Toggle(selected: seq<string>, id: string): (r: seq<string>)
    ensures id in selected ==> r == Without(selected, id)
    ensures id !in selected ==> r == selected + [id]
  {
    if id in selected then Without(selected, id) else selected + [id]
  }

  /** The toggled id's membership flips; every other id keeps its membership. */
  lemma ToggleFlips(selected: seq<string>, id: string, other: string)
    requires other != id
    ensures id in Toggle(selected, id) <==> id !in selected
    ensures other in Toggle(selected, id) <==> other in selected
  {
  }

  /** Removing keeps the other ids in their order: it is the sequence of the ids that differ from `id`. */
  lemma {:induction false} WithoutKeepsOrder(selected: seq<string>, id: string, i: int, j: int)
    requires 0 <= i < j < |selected| && selected[i] != id && selected[j] != id
    ensures exists a, b :: 0 <= a < b < |Without(selected, id)|
              && Without(selected, id)[a] == selected[i] && Without(selected, id)[b] == selected[j]
  {
    var rest := selected[1..];
    var head := if selected[0] == id then [] else [selected[0]];
    assert Without(selected, id) == head + Without(rest, id);
    if i == 0 {
      assert selected[j] == rest[j - 1];
      assert selected[j] in Without(rest, id);
      var b :| 0 <= b < |Without(rest, id)| && Without(rest, id)[b] == selected[j];
      assert Without(selected, id)[0] == selected[0];
      assert Without(selected, id)[b + 1] == selected[j];
    } else {
      WithoutKeepsOrder(rest, id, i - 1, j - 1);
      var a, b :| 0 <= a < b < |Without(rest, id)|
                   && Without(rest, id)[a] == selected[i] && Without(rest, id)[b] == selected[j];
      assert Without(selected, id)[a + |head|] == Without(rest, id)[a];
      assert Without(selected, id)[b + |head|] == Without(rest, id)[b];
    }
  }

  /** A list without `id` is unchanged by removing it. */
  lemma {:induction false} WithoutAbsent(selected: seq<string>, id: string)
    requires id !in selected
    ensures Without(selected, id) == selected
  {
    if selected != [] {
      assert selected[1..] + [] == selected[1..];
      assert id !in selected[1..] by {
        forall k | 0 <= k < |selected[1..]| ensures selected[1..][k] != id { assert selected[1..][k] == selected[k + 1]; }
      }
      WithoutAbsent(selected[1..], id);
      assert selected == [selected[0]] + selected[1..];
    }
  }

  /** Removing an id from a list that ends with it drops that copy. */
  lemma {:induction false} WithoutAppended(selected: seq<string>, id: string)
    ensures Without(selected + [id], id) == Without(selected, id)
  {
    if selected == [] {
      assert Without([id], id) == [] + Without([id][1..], id);
    } else {
      assert (selected + [id])[0] == selected[0];
      assert (selected + [id])[1..] == selected[1..] + [id];
      WithoutAppended(selected[1..], id);
    }
  }

  /** Toggling an unselected id twice gives back the original list. */
  lemma ToggleTwice(selected: seq<string>, id: string)
    requires id !in selected
    ensures Toggle(Toggle(selected, id), id) == selected
  {
    assert id in selected + [id];
    WithoutAppended(selected, id);
    WithoutAbsent(selected, id);
  }

  /** Toggling a selected id removes every copy of it. */
  lemma ToggleRemovesAll(selected: seq<string>, id: string)
    requires id in selected
    ensures id !in Toggle(selected, id)
    ensures |Toggle(selected, id)| < |selected|
  {
    WithoutShorter(selected, id);
  }

  lemma {:induction false} WithoutShorter(selected: seq<string>, id: string)
    requires id in selected
    ensures |Without(selected, id)| < |selected|
  {
    if selected[0] != id {
      assert id in selected[1..] by {
        var k :| 0 <= k < |selected| && selected[k] == id;
        assert selected[1..][k - 1] == id;
      }
      WithoutShorter(selected[1..], id);
    }
  }
}
