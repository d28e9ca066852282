/**
 Cutting a list into consecutive groups, closing a group only when the next item no
 longer fits. Bulk chunking and word wrapping are both this algorithm, with a different
 idea of what fits. Nothing here is about 25 pairs or about columns: all the theorem
 needs is that a part of a group that fits also fits.
*/
module Greedy {

  /** The groups the left-to-right pass still produces, with current open and rest unread. */
  function Cut<T>(fits: seq<T> -> bool, current: seq<T>, rest: seq<T>): seq<seq<T>>
    decreases |rest|
  {
    if rest == [] then
      if current == [] then [] else [current]
    else if fits(current + [rest[0]]) then
      Cut(fits, current + [rest[0]], rest[1..])
    else
      (if current == [] then [] else [current]) + Cut(fits, [rest[0]], rest[1..])
  }

  function Concat<T>(groups: seq<seq<T>>): seq<T> {
    if groups == [] then [] else groups[0] + Concat(groups[1..])
  }

  /** Every run of consecutive items inside a group that fits is itself a group that fits. */
  ghost predicate Hereditary<T(!new)>(fits: seq<T> -> bool) {
    forall s, i, j | 0 <= i < j <= |s| && fits(s) :: fits(s[i..j])
  }

  ghost predicate EachFitsAlone<T(!new)>(fits: seq<T> -> bool, items: seq<T>) {
    forall i | 0 <= i < |items| :: fits([items[i]])
  }

  /** groups is a way of cutting items into non-empty consecutive groups that all fit. */
  ghost predicate Partition<T(!new)>(fits: seq<T> -> bool, items: seq<T>, groups: seq<seq<T>>) {
    && Concat(groups) == items
    && forall i | 0 <= i < |groups| :: groups[i] != [] && fits(groups[i])
  }

  lemma {:induction false} ConcatSnoc<T>(groups: seq<seq<T>>)
    requires groups != []
    ensures Concat(groups) == Concat(groups[..|groups| - 1]) + groups[|groups| - 1]
  {
    var n := |groups| - 1;
    if n == 0 {
      assert groups[1..] == [];
    } else {
      ConcatSnoc(groups[1..]);
      assert groups[1..][..n - 1] == groups[..n][1..];
    }
  }

  lemma {:induction false} CutIsPartition<T(!new)>(fits: seq<T> -> bool, current: seq<T>, rest: seq<T>)
    requires EachFitsAlone(fits, rest)
    requires current != [] ==> fits(current)
    ensures Partition(fits, current + rest, Cut(fits, current, rest))
    decreases |rest|
  {
    var groups := Cut(fits, current, rest);
    if rest == [] {
      assert current + rest == current;
      if current != [] {
        assert groups[1..] == [];
        assert Concat(groups) == current + [];
      }
    } else {
      assert fits([rest[0]]);
      forall i | 0 <= i < |rest[1..]| ensures fits([rest[1..][i]]) {
        assert fits([rest[i + 1]]);
      }
      if fits(current + [rest[0]]) {
        CutIsPartition(fits, current + [rest[0]], rest[1..]);
        assert current + [rest[0]] + rest[1..] == current + rest;
      } else {
        CutIsPartition(fits, [rest[0]], rest[1..]);
        assert [rest[0]] + rest[1..] == rest;
        if current == [] {
          assert current + rest == rest;
          assert groups == Cut(fits, [rest[0]], rest[1..]);
        } else {
          assert groups[1..] == Cut(fits, [rest[0]], rest[1..]);
        }
      }
    }
  }

  /**
   The greedy pass stays ahead: whatever other cutting covers at least the open group
   and the unread items has at least as many groups.
  */
  lemma {:induction false} CutStaysAhead<T(!new)>(
    fits: seq<T> -> bool, current: seq<T>, rest: seq<T>, other: seq<seq<T>>, skipped: seq<T>)
    requires Hereditary(fits)
    requires Partition(fits, skipped + (current + rest), other)
    requires EachFitsAlone(fits, rest)
    ensures |Cut(fits, current, rest)| <= |other|
    decreases |rest|, |other|
  {
    if other == [] {
      assert skipped + (current + rest) == [];
    } else if |skipped| >= |other[0]| {
      // The other cutting's first group lies wholly in what is already behind us.
      var tail := skipped[|other[0]|..];
      assert Concat(other[1..]) == (skipped + (current + rest))[|other[0]|..] == tail + (current + rest);
      CutStaysAhead(fits, current, rest, other[1..], tail);
    } else if rest != [] {
      forall i | 0 <= i < |rest[1..]| ensures fits([rest[1..][i]]) {
        assert fits([rest[i + 1]]);
      }
      var next := current + [rest[0]];
      assert fits([rest[0]]) && (current == [] ==> next == [rest[0]]);
      if fits(next) {
        assert next + rest[1..] == current + rest;
        CutStaysAhead(fits, next, rest[1..], other, skipped);
      } else {
        assert [rest[0]] + rest[1..] == rest;
        var first := other[0];
        if |first| > |skipped| + |current| {
          SpanningGroupFits(fits, skipped, current, rest, first);
          assert false;
        }
        // The other cutting's first group ends inside the open one.
        var covered := (skipped + current)[|first|..];
        assert Concat(other[1..]) == (skipped + (current + rest))[|first|..] == covered + rest;
        CutStaysAhead(fits, [rest[0]], rest[1..], other[1..], covered);
      }
    }
  }

  lemma SpanningGroupFits<T(!new)>(
    fits: seq<T> -> bool, skipped: seq<T>, current: seq<T>, rest: seq<T>, group: seq<T>)
    requires Hereditary(fits) && fits(group)
    requires rest != [] && group <= skipped + (current + rest)
    requires |group| > |skipped| + |current|
    ensures fits(current + [rest[0]])
  {
    assert group[|skipped|..|skipped| + |current| + 1] == current + [rest[0]];
  }

  /** The cutting is a legal one, and no legal cutting has fewer groups. */
  lemma CutIsOptimal<T(!new)>(fits: seq<T> -> bool, items: seq<T>)
    requires Hereditary(fits) && EachFitsAlone(fits, items)
    ensures Partition(fits, items, Cut(fits, [], items))
    ensures forall other :: Partition(fits, items, other) ==> |Cut(fits, [], items)| <= |other|
  {
    CutIsPartition(fits, [], items);
    assert [] + items == items;
    forall other | Partition(fits, items, other)
      ensures |Cut(fits, [], items)| <= |other|
    {
      assert [] + ([] + items) == items;
      CutStaysAhead(fits, [], items, other, []);
    }
  }
}
