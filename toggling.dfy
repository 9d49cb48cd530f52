/**
 * "Delete if present, else create" on a collection of records that holds
 * each key at most once: the shared semantics of the like and subscription
 * toggles.
 */
module Toggling {

  /** The collection after toggling `x`. */
  function Toggle<T>(s: set<T>, x: T): (t: set<T>)
    ensures x in t <==> x !in s
    ensures t - {x} == s - {x}
  {
    if x in s then s - {x} else s + {x}
  }

  /** Toggling the same record twice restores the collection. */
  lemma ToggleTwice<T>(s: set<T>, x: T)
    ensures Toggle(Toggle(s, x), x) == s
  {
  }

  /** Toggles of two records can be applied in either order. */
  lemma ToggleCommutes<T>(s: set<T>, x: T, y: T)
    ensures Toggle(Toggle(s, x), y) == Toggle(Toggle(s, y), x)
  {
  }

  /** A toggle deletes one record or creates one. */
  lemma ToggleSize<T>(s: set<T>, x: T)
    ensures |Toggle(s, x)| == if x in s then |s| - 1 else |s| + 1
  {
  }
}
