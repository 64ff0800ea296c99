/** The reaction index: for each message id, each reaction label maps to the
    set of accounts that reacted with it. `toggle_reaction` flips one
    account's presence in one set. */
module Reactions {
  import opened Types

  type ReactionIndex = map<MessageId, map<string, set<AccountId>>>

  /** Who reacted to message `id` with `reaction`; empty when no set exists. */
  function Reactors(index: ReactionIndex, id: MessageId, reaction: string): set<AccountId>
  {
    if id in index && reaction in index[id] then index[id][reaction] else {}
  }

  /** The index after `who` toggles `reaction` on `id`: the containers are
      created empty when absent, then `who` is removed if present and added
      otherwise. Emptied sets are kept. */
  function Toggled(index: ReactionIndex, id: MessageId, reaction: string, who: AccountId): (r: ReactionIndex)
    ensures r.Keys == index.Keys + {id}
    ensures id in index ==> r[id].Keys == index[id].Keys + {reaction}
    ensures id !in index ==> r[id].Keys == {reaction}
    ensures who in r[id][reaction] <==> who !in Reactors(index, id, reaction)
    ensures r[id][reaction] - {who} == Reactors(index, id, reaction) - {who}
    ensures forall i :: i in index && i != id ==> r[i] == index[i]
    ensures forall l :: id in index && l in index[id] && l != reaction ==> r[id][l] == index[id][l]
  {
    var labels := if id in index then index[id] else map[];
    var reactors := if reaction in labels then labels[reaction] else {};
    var flipped := if who in reactors then reactors - {who} else reactors + {who};
    index[id := labels[reaction := flipped]]
  }

  /** Toggling changes only the one set it names. */
  lemma ToggleFrame(index: ReactionIndex, id: MessageId, reaction: string, who: AccountId,
                    i: MessageId, l: string)
    requires i != id || l != reaction
    ensures Reactors(Toggled(index, id, reaction, who), i, l) == Reactors(index, i, l)
  {
  }

  /** A second toggle by the same account undoes the first: every reactor set
      is as before, and when the set already existed the index is too. */
  lemma ToggleTwiceRestores(index: ReactionIndex, id: MessageId, reaction: string, who: AccountId)
    ensures forall i, l :: Reactors(Toggled(Toggled(index, id, reaction, who), id, reaction, who), i, l)
                           == Reactors(index, i, l)
    ensures id in index && reaction in index[id] ==>
              Toggled(Toggled(index, id, reaction, who), id, reaction, who) == index
  {
    var once := Toggled(index, id, reaction, who);
    var twice := Toggled(once, id, reaction, who);
    assert twice[id][reaction] == Reactors(index, id, reaction) by {
      assert who in twice[id][reaction] <==> who in Reactors(index, id, reaction);
    }
    forall i, l ensures Reactors(twice, i, l) == Reactors(index, i, l) {
      if i != id || l != reaction {
        ToggleFrame(once, id, reaction, who, i, l);
        ToggleFrame(index, id, reaction, who, i, l);
      }
    }
    if id in index && reaction in index[id] {
      assert twice[id] == index[id];
    }
  }
}
