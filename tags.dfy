/** `toggleTag` of halo/app/journal/page.tsx: the tag list of the journal
    form gains a tag that is absent and loses every copy of one that is
    present. */
module Tags {
  import opened Seqs

  /** Holds of every tag other than `tag`. */
  function Other(tag: string): string -> bool
  {
    t => t != tag
  }

  /** After the toggle the tag is present exactly when it was absent before,
      and every other tag occurs as often as it did. */
  function ToggleTag(tags: seq<string>, tag: string): (r: seq<string>)
    ensures tag in r <==> tag !in tags
    ensures forall t :: t != tag ==> multiset(r)[t] == multiset(tags)[t]
  {
    if tag in tags then
      FilterMembership(tags, Other(tag), tag);
      assert forall t :: t != tag ==> multiset(Filter(tags, Other(tag)))[t] == multiset(tags)[t] by {
        forall t | t != tag ensures multiset(Filter(tags, Other(tag)))[t] == multiset(tags)[t] {
          FilterMultiplicity(tags, Other(tag), t);
        }
      }
      Filter(tags, Other(tag))
    else
      tags + [tag]
  }

  /** An absent tag is appended after the existing tags. */
  lemma ToggleAbsentAppends(tags: seq<string>, tag: string)
    requires tag !in tags
    ensures ToggleTag(tags, tag) == tags + [tag]
  {
  }

  /** A present tag is removed with all its copies; the remaining tags keep
      their order, and the list shrinks by the number of copies. */
  lemma TogglePresentRemovesAll(tags: seq<string>, tag: string)
    requires tag in tags
    ensures ToggleTag(tags, tag) == Filter(tags, Other(tag))
    ensures tag !in ToggleTag(tags, tag)
    ensures |ToggleTag(tags, tag)| == |tags| - multiset(tags)[tag]
  {
    FilterMembership(tags, Other(tag), tag);
    FilterMultiplicity(tags, Other(tag), tag);
    var r := Filter(tags, Other(tag));
    forall t ensures multiset(tags)[t] == multiset(r)[t] + (if t == tag then multiset(tags)[tag] else 0) {
      FilterMultiplicity(tags, Other(tag), t);
    }
    assert multiset(tags) == multiset(r) + multiset{}[tag := multiset(tags)[tag]];
  }

  /** Toggling an absent tag twice restores the list. */
  lemma ToggleTwiceRestores(tags: seq<string>, tag: string)
    requires tag !in tags
    ensures ToggleTag(ToggleTag(tags, tag), tag) == tags
  {
    assert tag in tags + [tag];
    FilterAppend(tags, [tag], Other(tag));
    FilterKeepsAll(tags, Other(tag));
    assert Filter([tag], Other(tag)) == [];
  }
}
