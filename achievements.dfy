/** Granting achievements to one user: a grant is ignored for a key the catalog
    does not define and for a key the user already holds, and otherwise appends
    exactly one record for that key. */
module Achievements {

  import opened QuizData

  /** The user already holds an achievement with this key. */
  predicate HasKey(achs: seq<AchievementRecord>, key: string) {
    exists i | 0 <= i < |achs| :: achs[i].key == key
  }

  /** No key is held twice. */
  predicate KeysDistinct(achs: seq<AchievementRecord>) {
    forall i, j :: 0 <= i < j < |achs| ==> achs[i].key != achs[j].key
  }

  /** Every key held is defined in the catalog. */
  predicate KeysKnown(achs: seq<AchievementRecord>) {
    forall i :: 0 <= i < |achs| ==> achs[i].key in CatalogKeys
  }

  /** The record written when `key` is earned at time `now`. */
  function Earned(key: string, now: Timestamp): (a: AchievementRecord)
    requires key in CatalogKeys
    ensures a.key == key
  {
    var def := Definition(key);
    AchievementRecord(key, def.name, def.description, def.points, now)
  }

  /** `grantAchievement(key)` applied to a user's achievement list. The earlier
      records stay as they are; afterwards the user holds exactly the keys held
      before plus `key` when the catalog defines it; one record is added exactly
      when the key is defined and not yet held; and keys stay distinct. */
  function Grant(achs: seq<AchievementRecord>, key: string, now: Timestamp): (r: seq<AchievementRecord>)
    ensures |achs| <= |r| <= |achs| + 1 && r[..|achs|] == achs
    ensures |r| == |achs| + 1 <==> key in CatalogKeys && !HasKey(achs, key)
    ensures |r| == |achs| + 1 ==> r[|achs|] == Earned(key, now)
    ensures forall k :: HasKey(r, k) <==> HasKey(achs, k) || (k == key && key in CatalogKeys)
    ensures KeysDistinct(achs) ==> KeysDistinct(r)
    ensures KeysKnown(achs) ==> KeysKnown(r)
  {
    if key !in CatalogKeys || HasKey(achs, key) then achs
    else
      var r := achs + [Earned(key, now)];
      assert forall k :: HasKey(r, k) ==> HasKey(achs, k) || k == key by {
        forall k | HasKey(r, k) ensures HasKey(achs, k) || k == key {
          var i :| 0 <= i < |r| && r[i].key == k;
          if i < |achs| { assert achs[i].key == k; }
        }
      }
      assert HasKey(r, key) by { assert r[|achs|].key == key; }
      assert forall k :: HasKey(achs, k) ==> HasKey(r, k) by {
        forall k | HasKey(achs, k) ensures HasKey(r, k) {
          var i :| 0 <= i < |achs| && achs[i].key == k;
          assert r[i].key == k;
        }
      }
      r
  }

  /** Granting the same key a second time changes nothing, whatever the time. */
  lemma GrantIdempotent(achs: seq<AchievementRecord>, key: string, t1: Timestamp, t2: Timestamp)
    ensures Grant(Grant(achs, key, t1), key, t2) == Grant(achs, key, t1)
  {
  }

  /** The grants requested for `keys`, one after another in order. Earlier
      records stay as they are, and afterwards the user holds exactly the keys
      held before plus the requested keys the catalog defines. */
  function GrantAll(achs: seq<AchievementRecord>, keys: seq<string>, now: Timestamp): (r: seq<AchievementRecord>)
    ensures |achs| <= |r| && r[..|achs|] == achs
    ensures forall k :: HasKey(r, k) <==> HasKey(achs, k) || (k in keys && k in CatalogKeys)
    ensures KeysDistinct(achs) ==> KeysDistinct(r)
    ensures KeysKnown(achs) ==> KeysKnown(r)
  {
    if keys == [] then achs
    else
      var prior := GrantAll(achs, keys[..|keys| - 1], now);
      GrantAllStep(achs, prior, keys[..|keys| - 1], keys[|keys| - 1], now);
      assert keys == keys[..|keys| - 1] + [keys[|keys| - 1]];
      Grant(prior, keys[|keys| - 1], now)
  }

  /** One more grant keeps the earlier records and adds the new key to the
      keys held, when the catalog defines it. */
  lemma GrantAllStep(achs: seq<AchievementRecord>, prior: seq<AchievementRecord>, keys: seq<string>, key: string, now: Timestamp)
    requires |achs| <= |prior| && prior[..|achs|] == achs
    requires forall k :: HasKey(prior, k) <==> HasKey(achs, k) || (k in keys && k in CatalogKeys)
    ensures var r := Grant(prior, key, now);
      && |achs| <= |r| && r[..|achs|] == achs
      && forall k :: HasKey(r, k) <==> HasKey(achs, k) || (k in keys + [key] && k in CatalogKeys)
  {
    var r := Grant(prior, key, now);
    assert r[..|achs|] == r[..|prior|][..|achs|];
  }

  /** Granting one list of keys and then another is granting their concatenation. */
  lemma {:induction false} GrantAllAppend(achs: seq<AchievementRecord>, first: seq<string>, second: seq<string>, now: Timestamp)
    ensures GrantAll(achs, first + second, now) == GrantAll(GrantAll(achs, first, now), second, now)
  {
    if second != [] {
      var last := second[|second| - 1];
      var front := second[..|second| - 1];
      assert (first + second)[..|first + second| - 1] == first + front;
      assert (first + second)[|first + second| - 1] == last;
      GrantAllAppend(achs, first, front, now);
    } else {
      assert first + second == first;
    }
  }
}
