/**
 * `useFavorites`: the favourites list of a guest (kept locally) and of a
 * signed-in account (mirrored from the cloud), the rule choosing which one
 * is shown, and how a toggle and a cloud snapshot change them.
 *
 * Cloud writes are an outcome parameter (`writeOk`); the local cache copy,
 * the image compression and the debug fields are not part of this model.
 */
module Favorites {
  import opened Wrappers
  import opened RecipeId

  /** A stored favourite: `id` is None when it is not a string. */
  datatype Favorite = Favorite(id: Option<string>, title: string, image: Option<string>, timestamp: int)

  /** The recipe being toggled: its title and its own `id` member, if any. */
  datatype RecipeRef = RecipeRef(title: string, explicitId: Option<string>)

  /** `explicitId` is truthy: present and non-empty. */
  predicate HasExplicitId(r: RecipeRef) {
    r.explicitId.Some? && r.explicitId.value != ""
  }

  /** `typeof f.id === 'string' && candidates.includes(f.id)`. */
  predicate IdAmong(f: Favorite, candidates: seq<string>) {
    f.id.Some? && f.id.value in candidates
  }

  /** The guest toggle's `findIndex` predicate: the explicit id, or any of the title's id candidates. */
  predicate MatchesRecipe(f: Favorite, r: RecipeRef) {
    (HasExplicitId(r) && f.id == r.explicitId) || IdAmong(f, Candidates(r.title))
  }

  /** `findIndex` from position `from` on. */
  function FirstMatchFrom(list: seq<Favorite>, r: RecipeRef, from: nat): (k: Option<nat>)
    requires from <= |list|
    ensures k.Some? ==> (from <= k.value < |list| && MatchesRecipe(list[k.value], r)
      && forall j :: from <= j < k.value ==> !MatchesRecipe(list[j], r))
    ensures k.None? ==> forall j :: from <= j < |list| ==> !MatchesRecipe(list[j], r)
    decreases |list| - from
  {
    if from == |list| then None
    else if MatchesRecipe(list[from], r) then Some(from)
    else FirstMatchFrom(list, r, from + 1)
  }

  /** `recipeImage || r.image || null`. */
  function ImageToStore(storeImage: Option<string>, recipeImage: Option<string>): (r: Option<string>)
    ensures r.Some? ==> r.value != "" && (r == storeImage || r == recipeImage)
    ensures storeImage.Some? && storeImage.value != "" ==> r == storeImage
    ensures !(storeImage.Some? && storeImage.value != "") && recipeImage.Some? && recipeImage.value != ""
      ==> r == recipeImage
    ensures r.None? <==> (storeImage.None? || storeImage.value == "") && (recipeImage.None? || recipeImage.value == "")
  {
    if storeImage.Some? && storeImage.value != "" then storeImage
    else if recipeImage.Some? && recipeImage.value != "" then recipeImage
    else None
  }

  // ----------------------------------------------------------------- guest

  /**
   * The guest list after `toggleFavorite(r)`: the first matching entry
   * removed, or one new entry with the first id candidate appended.
   */
  function GuestToggle(prev: seq<Favorite>, r: RecipeRef, image: Option<string>, now: int): (next: seq<Favorite>)
    ensures FirstMatchFrom(prev, r, 0).Some? ==>
      var i := FirstMatchFrom(prev, r, 0).value;
      next == prev[..i] + prev[i + 1..]
    ensures FirstMatchFrom(prev, r, 0).None? ==>
      next == prev + [Favorite(Some(Candidates(r.title)[0]), r.title, image, now)]
  {
    match FirstMatchFrom(prev, r, 0)
    case Some(i) => prev[..i] + prev[i + 1..]
    case None => prev + [Favorite(Some(Candidates(r.title)[0]), r.title, image, now)]
  }

  /** `isFavorite` over a list: some entry's string id is one of the title's candidates. */
  predicate IsFavoriteIn(list: seq<Favorite>, title: string) {
    exists i :: 0 <= i < |list| && IdAmong(list[i], Candidates(title))
  }

  /** After a guest add the recipe is a favourite. */
  lemma GuestAddMakesFavorite(prev: seq<Favorite>, r: RecipeRef, image: Option<string>, now: int)
    requires FirstMatchFrom(prev, r, 0).None?
    ensures IsFavoriteIn(GuestToggle(prev, r, image, now), r.title)
  {
    var next := GuestToggle(prev, r, image, now);
    assert IdAmong(next[|prev|], Candidates(r.title));
  }

  /** Toggling a recipe that is not in the list twice leaves the list as it was. */
  lemma GuestToggleTwice(prev: seq<Favorite>, r: RecipeRef, image: Option<string>, now: int, image2: Option<string>, later: int)
    requires FirstMatchFrom(prev, r, 0).None?
    ensures GuestToggle(GuestToggle(prev, r, image, now), r, image2, later) == prev
  {
    var next := GuestToggle(prev, r, image, now);
    assert MatchesRecipe(next[|prev|], r);
    var k := FirstMatchFrom(next, r, 0);
    assert forall j :: 0 <= j < |prev| ==> next[j] == prev[j];
    assert k == Some(|prev|);
    assert next[..|prev|] == prev;
  }

  /** When only one entry matches, toggling removes the recipe from the favourites. */
  lemma GuestToggleRemovesOnlyMatch(prev: seq<Favorite>, r: RecipeRef, image: Option<string>, now: int)
    requires FirstMatchFrom(prev, r, 0).Some?
    requires forall j, k :: 0 <= j < k < |prev| && MatchesRecipe(prev[j], r) ==> !MatchesRecipe(prev[k], r)
    ensures !IsFavoriteIn(GuestToggle(prev, r, image, now), r.title)
  {
    var i := FirstMatchFrom(prev, r, 0).value;
    var next := GuestToggle(prev, r, image, now);
    forall j | 0 <= j < |next|
      ensures !IdAmong(next[j], Candidates(r.title))
    {
      if j < i {
        assert next[j] == prev[j];
      } else {
        assert next[j] == prev[j + 1];
        assert !MatchesRecipe(prev[j + 1], r);
      }
    }
  }

  // ----------------------------------------------------------------- cloud

  /** `prev.filter((f) => f.id !== id)`. */
  function CloudRemove(prev: seq<Favorite>, id: string): (next: seq<Favorite>)
    ensures |next| <= |prev|
    ensures forall f :: f in next <==> f in prev && f.id != Some(id)
  {
    if prev == [] then [] else (if prev[0].id == Some(id) then [] else [prev[0]]) + CloudRemove(prev[1..], id)
  }

  /** Filtering a concatenation filters each part and keeps their order. */
  lemma {:induction false} CloudRemoveAppend(a: seq<Favorite>, b: seq<Favorite>, id: string)
    ensures CloudRemove(a + b, id) == CloudRemove(a, id) + CloudRemove(b, id)
  {
    if a == [] {
      assert a + b == b;
    } else {
      assert (a + b)[1..] == a[1..] + b;
      CloudRemoveAppend(a[1..], b, id);
    }
  }

  /** Removing an id no entry has changes nothing. */
  lemma {:induction false} CloudRemoveAbsent(prev: seq<Favorite>, id: string)
    requires forall i :: 0 <= i < |prev| ==> prev[i].id != Some(id)
    ensures CloudRemove(prev, id) == prev
  {
    if prev != [] {
      CloudRemoveAbsent(prev[1..], id);
      assert [prev[0]] + prev[1..] == prev;
    }
  }

  /** The cloud add's update: skipped when an entry with that id is already there. */
  function CloudAdd(prev: seq<Favorite>, entry: Favorite): (next: seq<Favorite>)
    ensures (exists i :: 0 <= i < |prev| && prev[i].id == entry.id) ==> next == prev
    ensures (forall i :: 0 <= i < |prev| ==> prev[i].id != entry.id) ==> next == prev + [entry]
  {
    if exists i :: 0 <= i < |prev| && prev[i].id == entry.id then prev else prev + [entry]
  }

  /** Adding twice is adding once. */
  lemma CloudAddIdempotent(prev: seq<Favorite>, entry: Favorite)
    ensures CloudAdd(CloudAdd(prev, entry), entry) == CloudAdd(prev, entry)
  {
    var once := CloudAdd(prev, entry);
    if forall i :: 0 <= i < |prev| ==> prev[i].id != entry.id {
      assert once[|prev|].id == entry.id;
    }
  }

  /** Deleting what an add just wrote restores the list. */
  lemma CloudRemoveUndoesAdd(prev: seq<Favorite>, id: string, entry: Favorite)
    requires entry.id == Some(id)
    requires forall i :: 0 <= i < |prev| ==> prev[i].id != Some(id)
    ensures CloudRemove(CloudAdd(prev, entry), id) == prev
  {
    CloudRemoveAppend(prev, [entry], id);
    CloudRemoveAbsent(prev, id);
    assert CloudRemove([entry], id) == [];
    assert prev + [] == prev;
  }

  /** `existing`: the first cloud entry whose string id is a candidate of the title. */
  function FirstCandidateEntry(list: seq<Favorite>, candidates: seq<string>): (r: Option<Favorite>)
    ensures r.Some? ==> r.value in list && IdAmong(r.value, candidates)
    ensures r.None? ==> forall i :: 0 <= i < |list| ==> !IdAmong(list[i], candidates)
    ensures r.Some? ==>
      exists i :: 0 <= i < |list| && list[i] == r.value && forall j :: 0 <= j < i ==> !IdAmong(list[j], candidates)
  {
    if list == [] then None
    else if IdAmong(list[0], candidates) then Some(list[0])
    else FirstCandidateEntry(list[1..], candidates)
  }

  /** The snapshot rule: an empty snapshot clears the list only when it came from the server. */
  function SnapshotUpdate(current: seq<Favorite>, next: seq<Favorite>, fromCache: bool): (r: seq<Favorite>)
    ensures next != [] ==> r == next
    ensures next == [] ==> r == (if fromCache then current else [])
  {
    if next == [] then (if fromCache then current else []) else next
  }

  /** A repeated snapshot changes nothing more. */
  lemma SnapshotIdempotent(current: seq<Favorite>, next: seq<Favorite>, fromCache: bool)
    ensures SnapshotUpdate(SnapshotUpdate(current, next, fromCache), next, fromCache)
      == SnapshotUpdate(current, next, fromCache)
  {
  }

  // ---------------------------------------------------------- active list

  /** `shouldPreferCloud`: an account user, or one seen before while nobody is signed in now. */
  function ShouldPreferCloud(isAccountUser: bool, lastAccountUid: Option<string>, effectiveUserPresent: bool): (r: bool)
    ensures isAccountUser ==> r
    ensures !isAccountUser && effectiveUserPresent ==> !r
    ensures lastAccountUid.None? ==> (r <==> isAccountUser)
    ensures !isAccountUser && !effectiveUserPresent ==> (r <==> lastAccountUid.Some? && lastAccountUid.value != "")
  {
    isAccountUser || (lastAccountUid.Some? && lastAccountUid.value != "" && !effectiveUserPresent)
  }

  /** The effect that remembers the last account uid. */
  function NextLastAccountUid(isAccountUser: bool, effectiveUid: Option<string>, last: Option<string>): (r: Option<string>)
    ensures r == last || r == effectiveUid
    ensures isAccountUser && effectiveUid.Some? && effectiveUid.value != "" ==> r == effectiveUid
    ensures !(isAccountUser && effectiveUid.Some? && effectiveUid.value != "") ==> r == last
  {
    if isAccountUser && effectiveUid.Some? && effectiveUid.value != "" then effectiveUid else last
  }

  /**
   * Once an account user has been seen, the effect then sees the sign-out
   * (no account, no user) and leaves the remembered uid alone, so the cloud
   * list stays on show until a guest appears.
   */
  lemma SignOutKeepsCloud(uid: string, last: Option<string>)
    requires uid != ""
    ensures var remembered := NextLastAccountUid(false, None, NextLastAccountUid(true, Some(uid), last));
      remembered == Some(uid)
      && ShouldPreferCloud(false, remembered, false)
      && !ShouldPreferCloud(false, remembered, true)
  {
  }

  class FavoritesState {
    var guest: seq<Favorite>
    var cloud: seq<Favorite>
    var lastAccountUid: Option<string>

    constructor ()
      ensures guest == [] && cloud == [] && lastAccountUid.None?
    {
      guest := [];
      cloud := [];
      lastAccountUid := None;
    }

    /** The list on show. */
    function Active(isAccountUser: bool, effectiveUserPresent: bool): (list: seq<Favorite>)
      reads this
      ensures list == guest || list == cloud
      ensures isAccountUser ==> list == cloud
      ensures !isAccountUser && effectiveUserPresent ==> list == guest
      ensures !isAccountUser && !effectiveUserPresent
        ==> list == (if lastAccountUid.Some? && lastAccountUid.value != "" then cloud else guest)
    {
      if ShouldPreferCloud(isAccountUser, lastAccountUid, effectiveUserPresent) then cloud else guest
    }

    /** `isFavorite(r)` on the list on show. */
    function IsFavorite(title: string, isAccountUser: bool, effectiveUserPresent: bool): (b: bool)
      reads this
      ensures b <==> exists i :: (0 <= i < |Active(isAccountUser, effectiveUserPresent)|
        && IdAmong(Active(isAccountUser, effectiveUserPresent)[i], Candidates(title)))
    {
      IsFavoriteIn(Active(isAccountUser, effectiveUserPresent), title)
    }

    method ObserveUser(isAccountUser: bool, effectiveUid: Option<string>)
      modifies `lastAccountUid
      ensures lastAccountUid == NextLastAccountUid(isAccountUser, effectiveUid, old(lastAccountUid))
    {
      if isAccountUser && effectiveUid.Some? && effectiveUid.value != "" {
        lastAccountUid := effectiveUid;
      }
    }

    /**
     * `toggleFavorite` for a guest or anonymous user; `storeImage` is the
     * recipe store's current image and `recipeImage` the recipe's own.
     */
    method ToggleGuest(r: RecipeRef, storeImage: Option<string>, recipeImage: Option<string>, now: int)
      modifies `guest
      ensures guest == GuestToggle(old(guest), r, ImageToStore(storeImage, recipeImage), now)
    {
      var candidates := Candidates(r.title);
      var image := ImageToStore(storeImage, recipeImage);
      var existing := FirstMatchFrom(guest, r, 0);
      if existing.Some? {
        var i := existing.value;
        guest := guest[..i] + guest[i + 1..];
        return;
      }
      guest := guest + [Favorite(Some(candidates[0]), r.title, image, now)];
    }

    /**
     * `toggleFavorite` for an account: delete the explicit id, else the
     * existing candidate entry, else write the first candidate. A failed
     * cloud write leaves the list alone and reports the error.
     */
    method ToggleCloud(r: RecipeRef, image: Option<string>, now: int, writeOk: bool) returns (failed: bool)
      modifies `cloud
      ensures failed <==> !writeOk
      ensures !writeOk ==> cloud == old(cloud)
      ensures writeOk && HasExplicitId(r) ==> cloud == CloudRemove(old(cloud), r.explicitId.value)
      ensures var existing := FirstCandidateEntry(old(cloud), Candidates(r.title));
        writeOk && !HasExplicitId(r) && existing.Some? && existing.value.id.value != "" ==>
          cloud == CloudRemove(old(cloud), existing.value.id.value)
      ensures var existing := FirstCandidateEntry(old(cloud), Candidates(r.title));
        writeOk && !HasExplicitId(r) && !(existing.Some? && existing.value.id.value != "") ==>
          cloud == CloudAdd(old(cloud), Favorite(Some(Candidates(r.title)[0]), r.title, image, now))
    {
      if !writeOk {
        return true;
      }
      failed := false;
      var candidates := Candidates(r.title);
      var existing := FirstCandidateEntry(cloud, candidates);
      if HasExplicitId(r) {
        cloud := CloudRemove(cloud, r.explicitId.value);
      } else if existing.Some? && existing.value.id.value != "" {
        cloud := CloudRemove(cloud, existing.value.id.value);
      } else {
        cloud := CloudAdd(cloud, Favorite(Some(candidates[0]), r.title, image, now));
      }
    }

    /** The `onSnapshot` callback. */
    method ApplySnapshot(next: seq<Favorite>, fromCache: bool)
      modifies `cloud
      ensures cloud == SnapshotUpdate(old(cloud), next, fromCache)
    {
      if next == [] {
        if !fromCache {
          cloud := [];
        }
        return;
      }
      cloud := next;
    }
  }
}
