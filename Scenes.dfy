/** The build-index rule of Rocket.LoadNextLevel: the scene after the active one,
    wrapping from the last scene in the build settings back to scene 0. */
module Scenes {

  /** The index LoadNextLevel hands to the scene manager when the active scene has
      build index `current` and the build settings hold `count` scenes. Nothing in
      the source guards the inputs, so nothing is required here either. */
  function NextSceneIndex(current: int, count: int): (next: int)
    ensures 0 <= current < count ==> 0 <= next < count
    ensures next == 0 || next == current + 1
  {
    if current == count - 1 then 0 else current + 1
  }

  /** For an index inside the build settings the rule is the successor modulo `count`. */
  lemma NextSceneIndexIsSuccessor(current: int, count: int)
    requires 0 <= current < count
    ensures NextSceneIndex(current, count) == (current + 1) % count
  {
  }

  /** Only the last scene wraps: the next index is 0 exactly when `current` is the
      last index (or, outside the build settings, when `current` is -1). */
  lemma NextSceneIndexWraps(current: int, count: int)
    ensures NextSceneIndex(current, count) == 0 <==> current == count - 1 || current == -1
  {
  }

  /** The index reached after `k` successive calls of LoadNextLevel. */
  function AdvanceScenes(current: int, count: int, k: nat): int
  {
    if k == 0 then current else NextSceneIndex(AdvanceScenes(current, count, k - 1), count)
  }

  /** Within one pass through the build settings (at most `count` loads) the index
      climbs by one per load and wraps past the last scene exactly once. */
  lemma {:induction false} AdvanceScenesWithinPass(current: int, count: int, k: nat)
    requires 0 <= current < count && k <= count
    ensures AdvanceScenes(current, count, k)
              == if current + k < count then current + k else current + k - count
  {
    if k > 0 {
      AdvanceScenesWithinPass(current, count, k - 1);
    }
  }

  /** Scene `j` is reached from `current` within fewer than `count` loads. */
  ghost predicate ReachedWithinPass(current: int, count: int, j: int)
  {
    exists k: nat :: k < count && AdvanceScenes(current, count, k) == j
  }

  /** Pressing on through the build settings from any scene reaches every scene
      within `count` loads and comes back to where it started after exactly
      `count` loads, and no sooner. */
  lemma AdvanceScenesCycle(current: int, count: int)
    requires 0 <= current < count
    ensures AdvanceScenes(current, count, count) == current
    ensures forall k: nat :: 0 < k < count ==> AdvanceScenes(current, count, k) != current
    ensures forall j :: 0 <= j < count ==> ReachedWithinPass(current, count, j)
  {
    AdvanceScenesWithinPass(current, count, count);
    forall k: nat | 0 < k < count
      ensures AdvanceScenes(current, count, k) != current
    {
      AdvanceScenesWithinPass(current, count, k);
    }
    forall j | 0 <= j < count
      ensures ReachedWithinPass(current, count, j)
    {
      var k: nat := if j >= current then j - current else j - current + count;
      AdvanceScenesWithinPass(current, count, k);
      assert AdvanceScenes(current, count, k) == j;
    }
  }
}
