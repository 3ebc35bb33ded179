/**
 The slot availability rule: a Saturday or a Sunday has no slots; any other day
 offers those of the seven fixed base slots that survive a per-slot keep/drop
 decision. The widget draws each decision at random; here the decisions are
 an input, one per base slot, in the order of the base list.
 */
module Slots {
  import opened Calendar

  /** The fixed list of bookable times of a weekday. */
  const BaseSlots: seq<string> := ["09:00", "10:00", "11:00", "14:00", "15:00", "16:00", "17:00"]

  /** Sunday (0) and Saturday (6) get no slots. */
  predicate IsWeekend(d: Day)
  {
    Weekday(d) == 0 || Weekday(d) == 6
  }

  /** `xs` is obtained from `ys` by deleting elements, without reordering the rest. */
  predicate IsSubsequence<T(==)>(xs: seq<T>, ys: seq<T>)
    decreases |ys|
  {
    if ys == [] then xs == []
    else (xs != [] && xs[0] == ys[0] && IsSubsequence(xs[1..], ys[1..])) || IsSubsequence(xs, ys[1..])
  }

  /** No element occurs twice. */
  predicate Distinct<T(==)>(s: seq<T>)
  {
    forall i, j :: 0 <= i < j < |s| ==> s[i] != s[j]
  }

  /** Number of `true` decisions. */
  function CountKept(keep: seq<bool>): (n: nat)
    ensures n <= |keep|
  {
    if keep == [] then 0 else (if keep[0] then 1 else 0) + CountKept(keep[1..])
  }

  /** The array filter of the widget, with the i-th decision saying whether `slots[i]` stays. */
  function KeepWhere(slots: seq<string>, keep: seq<bool>): (r: seq<string>)
    requires |keep| == |slots|
    ensures |r| == CountKept(keep) <= |slots|
    ensures IsSubsequence(r, slots)
  {
    if slots == [] then []
    else if keep[0] then [slots[0]] + KeepWhere(slots[1..], keep[1..])
    else KeepWhere(slots[1..], keep[1..])
  }

  /** The slots offered for `date`, given one keep/drop decision per base slot. */
  function AvailableSlotsForDate(date: Day, keep: seq<bool>): (r: seq<string>)
    requires |keep| == |BaseSlots|
    ensures IsWeekend(date) ==> r == []
    ensures !IsWeekend(date) ==> IsSubsequence(r, BaseSlots) && |r| == CountKept(keep)
  {
    if IsWeekend(date) then [] else KeepWhere(BaseSlots, keep)
  }

  /** A slot is kept exactly when some position holds it and its decision is `true`. */
  lemma {:induction false} KeepWhereMembership(slots: seq<string>, keep: seq<bool>, t: string)
    requires |keep| == |slots|
    ensures t in KeepWhere(slots, keep) <==> exists i :: 0 <= i < |slots| && keep[i] && slots[i] == t
  {
    if slots != [] {
      KeepWhereMembership(slots[1..], keep[1..], t);
      if exists i :: 0 <= i < |slots| && keep[i] && slots[i] == t {
        var i :| 0 <= i < |slots| && keep[i] && slots[i] == t;
        if i > 0 {
          assert keep[1..][i - 1] && slots[1..][i - 1] == t;
        }
      }
      if exists i :: 0 <= i < |slots| - 1 && keep[1..][i] && slots[1..][i] == t {
        var i :| 0 <= i < |slots| - 1 && keep[1..][i] && slots[1..][i] == t;
        assert keep[i + 1] && slots[i + 1] == t;
      }
    }
  }

  /** Every element of a subsequence occurs in the sequence it was taken from. */
  lemma {:induction false} SubsequenceMembers<T>(xs: seq<T>, ys: seq<T>, x: T)
    requires IsSubsequence(xs, ys)
    requires x in xs
    ensures x in ys
    decreases |ys|
  {
    if xs != [] && xs[0] == ys[0] && IsSubsequence(xs[1..], ys[1..]) {
      if x != xs[0] {
        SubsequenceMembers(xs[1..], ys[1..], x);
      }
    } else {
      SubsequenceMembers(xs, ys[1..], x);
    }
  }

  /** Deleting elements from a sequence without duplicates leaves none. */
  lemma {:induction false} SubsequenceDistinct<T>(xs: seq<T>, ys: seq<T>)
    requires IsSubsequence(xs, ys) && Distinct(ys)
    ensures Distinct(xs)
    decreases |ys|
  {
    if ys != [] {
      assert Distinct(ys[1..]) by {
        forall i, j | 0 <= i < j < |ys| - 1
          ensures ys[1..][i] != ys[1..][j]
        {
          assert ys[1..][i] == ys[i + 1] && ys[1..][j] == ys[j + 1];
        }
      }
      if xs != [] && xs[0] == ys[0] && IsSubsequence(xs[1..], ys[1..]) {
        SubsequenceDistinct(xs[1..], ys[1..]);
        forall j | 0 < j < |xs|
          ensures xs[0] != xs[j]
        {
          assert xs[j] == xs[1..][j - 1];
          SubsequenceMembers(xs[1..], ys[1..], xs[j]);
          assert ys[0] !in ys[1..];
        }
        forall i, j | 0 <= i < j < |xs|
          ensures xs[i] != xs[j]
        {
          if i > 0 {
            assert xs[i] == xs[1..][i - 1] && xs[j] == xs[1..][j - 1];
          }
        }
      } else {
        SubsequenceDistinct(xs, ys[1..]);
      }
    }
  }

  /** With every decision `true` nothing is dropped. */
  lemma {:induction false} KeepAllIsIdentity(slots: seq<string>, keep: seq<bool>)
    requires |keep| == |slots|
    requires forall i :: 0 <= i < |keep| ==> keep[i]
    ensures KeepWhere(slots, keep) == slots
  {
    if slots != [] {
      KeepAllIsIdentity(slots[1..], keep[1..]);
    }
  }

  /**
   The offered slots of a weekday: in base-list order, without duplicates, at most
   seven, each one a base slot whose decision was `true`; with all decisions `true`
   they are the whole base list.
   */
  lemma WeekdaySlots(date: Day, keep: seq<bool>)
    requires |keep| == |BaseSlots|
    requires !IsWeekend(date)
    ensures IsSubsequence(AvailableSlotsForDate(date, keep), BaseSlots)
    ensures Distinct(AvailableSlotsForDate(date, keep))
    ensures |AvailableSlotsForDate(date, keep)| == CountKept(keep) <= |BaseSlots|
    ensures forall t :: t in AvailableSlotsForDate(date, keep) <==> exists i :: 0 <= i < |BaseSlots| && keep[i] && BaseSlots[i] == t
    ensures (forall i :: 0 <= i < |keep| ==> keep[i]) ==> AvailableSlotsForDate(date, keep) == BaseSlots
  {
    var r := AvailableSlotsForDate(date, keep);
    SubsequenceDistinct(r, BaseSlots);
    forall t
      ensures t in r <==> exists i :: 0 <= i < |BaseSlots| && keep[i] && BaseSlots[i] == t
    {
      KeepWhereMembership(BaseSlots, keep, t);
    }
    if forall i :: 0 <= i < |keep| ==> keep[i] {
      KeepAllIsIdentity(BaseSlots, keep);
    }
  }

  /** Whatever the day and the decisions, every offered slot is one of the base slots. */
  lemma OfferedSlotsAreBaseSlots(date: Day, keep: seq<bool>, t: string)
    requires |keep| == |BaseSlots|
    requires t in AvailableSlotsForDate(date, keep)
    ensures t in BaseSlots
  {
    SubsequenceMembers(AvailableSlotsForDate(date, keep), BaseSlots, t);
  }
}
