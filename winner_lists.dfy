/**
 * How the combined winner list is built from the current-mode and BLACKOUT
 * lists: `distinctBy` on the key "<cardId>-<mode name>", keeping the first
 * winner of each key.
 */
module WinnerLists {
  import opened GameMode
  import opened Cards
  import opened Validator

  /**
   * The string key the combined list is made distinct by: the card's label,
   * a '-', then the mode's name, which has no '-' in it, so the last '-' of
   * the key is the one that separates the two.
   */
  function Key(w: Winner): (r: string)
    ensures |r| > |w.card.cardId| + 1 && r[..|w.card.cardId|] == w.card.cardId
    ensures r[|w.card.cardId|] == '-'
    ensures r[|w.card.cardId| + 1..] == Name(w.gameMode)
  {
    w.card.cardId + "-" + Name(w.gameMode)
  }

  /**
   * Two winners share a key exactly when they share card label and mode: no
   * mode name contains '-', so the key cannot be split two ways.
   */
  lemma KeyInjective(a: Winner, b: Winner)
    ensures Key(a) == Key(b) <==> a.card.cardId == b.card.cardId && a.gameMode == b.gameMode
  {
    NameHasNoDash(a.gameMode);
    NameHasNoDash(b.gameMode);
    if Key(a) == Key(b) {
      var s, la, lb := Key(a), |a.card.cardId|, |b.card.cardId|;
      // Each key's '-' is at its label's length and nowhere after it.
      assert la == lb;
      assert a.card.cardId == s[..la] == b.card.cardId;
      assert Name(a.gameMode) == s[la + 1..] == Name(b.gameMode);
      NamesDistinct(a.gameMode, b.gameMode);
    }
  }

  /** `x` is the earliest entry of `xs` with its key. */
  ghost predicate FirstOfKey<T, K>(xs: seq<T>, key: T -> K, x: T)
  {
    exists i :: 0 <= i < |xs| && xs[i] == x && forall k :: 0 <= k < i ==> key(xs[k]) != key(x)
  }

  /**
   * The scan of `distinctBy`: walk `xs` in order, keep an entry when its key
   * is not in `seen`, and add that key to `seen`.
   */
  function DistinctFrom<T, K>(xs: seq<T>, key: T -> K, seen: set<K>): (r: seq<T>)
    ensures |r| <= |xs|
    ensures forall i :: 0 <= i < |r| ==> key(r[i]) !in seen
    ensures forall i, j :: 0 <= i < j < |r| ==> key(r[i]) != key(r[j])
  {
    if xs == [] then []
    else if key(xs[0]) in seen then DistinctFrom(xs[1..], key, seen)
    else
      var rest := DistinctFrom(xs[1..], key, seen + {key(xs[0])});
      assert forall j :: 0 <= j < |rest| ==> key(rest[j]) != key(xs[0]);
      [xs[0]] + rest
  }

  /** `a` is `b` with some entries dropped and the rest left in their order. */
  predicate IsSubseq<T(==)>(a: seq<T>, b: seq<T>)
    decreases |b|
  {
    a == [] || (b != [] && ((a[0] == b[0] && IsSubseq(a[1..], b[1..])) || IsSubseq(a, b[1..])))
  }

  /** The scan only drops entries: what it keeps stays in the order of `xs`. */
  lemma {:induction false} DistinctFromInOrder<T, K>(xs: seq<T>, key: T -> K, seen: set<K>)
    ensures IsSubseq(DistinctFrom(xs, key, seen), xs)
  {
    var r := DistinctFrom(xs, key, seen);
    if xs == [] {
    } else if key(xs[0]) in seen {
      DistinctFromInOrder(xs[1..], key, seen);
    } else {
      var rest := DistinctFrom(xs[1..], key, seen + {key(xs[0])});
      DistinctFromInOrder(xs[1..], key, seen + {key(xs[0])});
      assert r[0] == xs[0] && r[1..] == rest;
    }
  }

  /** An entry that is first of its key in the tail, with a different key at the head, is first in the whole. */
  lemma FirstOfKeyCons<T, K>(xs: seq<T>, key: T -> K, x: T)
    requires |xs| > 0 && FirstOfKey(xs[1..], key, x) && key(xs[0]) != key(x)
    ensures FirstOfKey(xs, key, x)
  {
    var i :| 0 <= i < |xs[1..]| && xs[1..][i] == x && forall k :: 0 <= k < i ==> key(xs[1..][k]) != key(x);
    forall k | 0 <= k < i + 1 ensures key(xs[k]) != key(x) {
      if k > 0 {
        assert xs[k] == xs[1..][k - 1];
      }
    }
    assert xs[i + 1] == x;
  }

  /** Each entry the scan keeps comes from `xs` and is the first of its key there. */
  lemma {:induction false} DistinctFromKeepsFirst<T, K>(xs: seq<T>, key: T -> K, seen: set<K>, x: T)
    requires x in DistinctFrom(xs, key, seen)
    ensures x in xs && key(x) !in seen
    ensures FirstOfKey(xs, key, x)
  {
    if key(xs[0]) in seen {
      DistinctFromKeepsFirst(xs[1..], key, seen, x);
      FirstOfKeyCons(xs, key, x);
    } else if x == xs[0] {
      assert xs[0] == x;
    } else {
      var rest := DistinctFrom(xs[1..], key, seen + {key(xs[0])});
      assert x in rest;
      DistinctFromKeepsFirst(xs[1..], key, seen + {key(xs[0])}, x);
      FirstOfKeyCons(xs, key, x);
    }
  }

  /** Every key of `xs` not already seen is represented in the scan's result. */
  lemma {:induction false} DistinctFromCovers<T, K>(xs: seq<T>, key: T -> K, seen: set<K>, x: T)
    requires x in xs && key(x) !in seen
    ensures exists y :: y in DistinctFrom(xs, key, seen) && key(y) == key(x)
  {
    var r := DistinctFrom(xs, key, seen);
    if key(xs[0]) in seen {
      assert x in xs[1..];
      DistinctFromCovers(xs[1..], key, seen, x);
    } else if key(xs[0]) == key(x) {
      assert r[0] == xs[0];
    } else {
      assert x in xs[1..];
      var seen' := seen + {key(xs[0])};
      DistinctFromCovers(xs[1..], key, seen', x);
      var y :| y in DistinctFrom(xs[1..], key, seen') && key(y) == key(x);
      assert y in r;
    }
  }

  /** `distinctBy { "${cardId}-${gameMode}" }`. */
  function DistinctByKey(ws: seq<Winner>): (r: seq<Winner>)
    ensures |r| <= |ws|
    ensures forall i, j :: 0 <= i < j < |r| ==> Key(r[i]) != Key(r[j])
  {
    DistinctFrom(ws, Key, {})
  }

  /**
   * The combined list keeps, from `ws`, exactly the first winner of each key:
   * every kept winner is first of its key, and every key of `ws` is kept.
   */
  lemma DistinctByKeyKeepsFirst(ws: seq<Winner>, w: Winner)
    ensures w in DistinctByKey(ws) ==> w in ws && FirstOfKey(ws, Key, w)
    ensures w in ws ==> exists v :: v in DistinctByKey(ws) && Key(v) == Key(w)
  {
    if w in DistinctByKey(ws) {
      DistinctFromKeepsFirst(ws, Key, {}, w);
    }
    if w in ws {
      DistinctFromCovers(ws, Key, {}, w);
    }
  }

  /**
   * The combined list is the merged list with repeats dropped, in the merged
   * order: current-mode winners first, in card order, then BLACKOUT winners.
   */
  lemma DistinctByKeyInOrder(ws: seq<Winner>)
    ensures IsSubseq(DistinctByKey(ws), ws)
  {
    DistinctFromInOrder(ws, Key, {});
  }

  /** In the combined list, no two entries share card label and mode. */
  lemma DistinctByKeyNoRepeatedPair(ws: seq<Winner>, i: int, j: int)
    requires 0 <= i < j < |DistinctByKey(ws)|
    ensures var r := DistinctByKey(ws);
      r[i].card.cardId != r[j].card.cardId || r[i].gameMode != r[j].gameMode
  {
    var r := DistinctByKey(ws);
    KeyInjective(r[i], r[j]);
  }

  /**
   * The key uses the card's label, not its number: two different winning
   * cards with the same label (for instance two unlabelled cards) in the
   * same mode appear once in the combined list.
   */
  lemma SharedLabelCollapses(c1: Card, c2: Card, mode: Mode)
    requires c1 != c2 && c1.cardId == c2.cardId
    ensures DistinctByKey([Winner(c1, mode), Winner(c2, mode)]) == [Winner(c1, mode)]
  {
    var ws := [Winner(c1, mode), Winner(c2, mode)];
    var k := Key(ws[0]);
    assert Key(ws[1]) == k;
    assert ws[1..][1..] == [];
    var seen: set<string> := {};
    assert seen + {k} == {k};
    assert DistinctFrom(ws[1..], Key, {k}) == [] by {
      assert Key(ws[1..][0]) in {k};
    }
    assert DistinctFrom(ws, Key, seen) == [ws[0]] + DistinctFrom(ws[1..], Key, seen + {k});
  }
}
