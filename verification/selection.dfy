/** The "tap to select / tap again to deselect" rule that the favourites store
    and several screens share: `list.includes(x) ? list.filter(y => y !== x)
    : [...list, x]`. */
module Selection {
  import opened Seqs

  /** Flip the membership of `x`: drop every occurrence when present, append
      it at the end when absent. */
  function Toggle<T(==)>(s: seq<T>, x: T): (r: seq<T>)
    ensures x in r <==> x !in s
    ensures forall i :: 0 <= i < |s| && s[i] != x ==> s[i] in r
    ensures forall i :: 0 <= i < |r| && r[i] != x ==> r[i] in s
    ensures x !in s ==> |r| == |s| + 1 && r[..|s|] == s && r[|s|] == x
    ensures x in s ==> Subseq(r, s) && |r| == |s| - Count(s, x)
    ensures NoDup(s) ==> NoDup(r)
  {
    WithoutNoDup(s, x);
    if x in s then Without(s, x) else s + [x]
  }

  /** Toggling an absent element twice gives back exactly the original list. */
  lemma ToggleTwiceAbsent<T>(s: seq<T>, x: T)
    requires x !in s
    ensures Toggle(Toggle(s, x), x) == s
  {
    WithoutAppend(s, [x], x);
    WithoutAbsent(s, x);
  }

  /** On a duplicate-free list, a double toggle restores the exact sequence if
      and only if the element was absent or already last. */
  lemma ToggleTwiceRestores<T>(s: seq<T>, x: T)
    requires NoDup(s)
    ensures Toggle(Toggle(s, x), x) == s <==> (x !in s || s[|s| - 1] == x)
  {
    if x !in s {
      ToggleTwiceAbsent(s, x);
    } else if s[|s| - 1] == x {
      var t := s[..|s| - 1];
      assert s == t + [x];
      assert x !in t by {
        forall k | 0 <= k < |t| ensures t[k] != x {
          assert t[k] == s[k];
        }
      }
      WithoutAppend(t, [x], x);
      WithoutAbsent(t, x);
      assert Toggle(s, x) == t;
      ToggleTwiceAbsent(t, x);
    } else {
      var r := Toggle(Toggle(s, x), x);
      assert r[|r| - 1] == x;
    }
  }

  /** A double toggle of a present element that is not last reorders the list:
      `["a", "b"]` becomes `["b", "a"]`. */
  lemma ToggleTwiceMovesToEnd()
    ensures Toggle(Toggle(["a", "b"], "a"), "a") == ["b", "a"]
  {
    var s: seq<string> := ["a", "b"];
    assert Without(s, "a") == ["b"] by {
      assert s[1..] == ["b"];
      assert ["b"][1..] == [];
    }
    assert "a" !in ["b"];
  }
}
