/**
 * The `LAST_VERSION` tag maintenance of `RepositoryArtifactIdGroupServiceImpl`:
 * when an artifact entry joins its artifactId group, the tag moves to it, stays
 * where it is, or is shared, by comparing artifact coordinates with the entries
 * that hold the tag.
 *
 * Entries are objects whose tag sets are changed in place. Coordinates are an
 * abstract type `C` ordered by `cmp`, which stands for
 * `ArtifactCoordinates.compareTo` and obeys the contract of `Comparable`.
 */
module ArtifactGroups {
  import opened Wrappers

  datatype ArtifactTag = LastVersion | ArtifactTag(name: string)

  // ---------------------------------------------------------------------------
  // The order on coordinates
  // ---------------------------------------------------------------------------

  /** The contract of `Comparable.compareTo`: the sign flips with the arguments,
      "greater" is transitive, and equal values compare alike with everything. */
  ghost predicate IsComparator<C(!new)>(cmp: (C, C) -> int)
  {
    // the triggers name every application, so that the axioms relate the
    // comparisons a proof mentions and never make up new ones
    && (forall x, y {:trigger cmp(x, y), cmp(y, x)} :: cmp(x, y) > 0 <==> cmp(y, x) < 0)
    && (forall x, y, z {:trigger cmp(x, y), cmp(y, z), cmp(x, z)} :: cmp(x, y) > 0 && cmp(y, z) > 0 ==> cmp(x, z) > 0)
    && (forall x, y, z {:trigger cmp(x, y), cmp(x, z), cmp(y, z)} ::
          cmp(x, y) == 0 ==> (cmp(x, z) > 0 <==> cmp(y, z) > 0) && (cmp(x, z) < 0 <==> cmp(y, z) < 0))
  }

  lemma ComparatorReflexive<C(!new)>(cmp: (C, C) -> int, x: C)
    requires IsComparator(cmp)
    ensures cmp(x, x) == 0
  {
    assert cmp(x, x) > 0 <==> cmp(x, x) < 0;
  }

  /** "At least" is transitive. */
  lemma AtLeastTransitive<C(!new)>(cmp: (C, C) -> int, a: C, b: C, c: C)
    requires IsComparator(cmp)
    requires cmp(a, b) >= 0 && cmp(b, c) >= 0
    ensures cmp(a, c) >= 0
  {
    if cmp(a, b) == 0 {
      assert cmp(a, c) < 0 <==> cmp(b, c) < 0;
    } else if cmp(b, c) == 0 {
      assert cmp(b, a) < 0 <==> cmp(c, a) < 0;
      assert cmp(c, a) < 0;
    } else {
      assert cmp(a, c) > 0;
    }
  }

  /** Two values that compare equal are seen alike from any third value. */
  lemma EqualSeenAlike<C(!new)>(cmp: (C, C) -> int, x: C, y: C, z: C)
    requires IsComparator(cmp)
    requires cmp(x, y) == 0
    ensures cmp(z, x) > 0 <==> cmp(z, y) > 0
    ensures cmp(z, x) < 0 <==> cmp(z, y) < 0
  {
    assert (cmp(x, z) > 0 <==> cmp(y, z) > 0) && (cmp(x, z) < 0 <==> cmp(y, z) < 0);
    assert cmp(z, x) > 0 <==> cmp(x, z) < 0;
    assert cmp(z, y) > 0 <==> cmp(y, z) < 0;
  }

  // ---------------------------------------------------------------------------
  // The tag invariant, on values
  // ---------------------------------------------------------------------------

  /** `k` has the greatest coordinates of all the keys of `coords`. */
  ghost predicate IsMaximal<K, C(!new)>(coords: map<K, C>, k: K, cmp: (C, C) -> int)
    requires k in coords
  {
    forall x :: x in coords ==> cmp(coords[k], coords[x]) >= 0
  }

  /** The entries holding the tag are exactly those with the greatest coordinates. */
  ghost predicate TagsMaximal<K, C(!new)>(coords: map<K, C>, tagged: set<K>, cmp: (C, C) -> int)
  {
    forall k :: k in coords ==> (k in tagged <==> IsMaximal(coords, k, cmp))
  }

  /** A finite, non-empty group has an entry with the greatest coordinates. */
  lemma {:induction false} MaximumExists<K, C(!new)>(coords: map<K, C>, cmp: (C, C) -> int)
    requires IsComparator(cmp)
    requires coords != map[]
    ensures exists k :: k in coords && IsMaximal(coords, k, cmp)
    decreases |coords|
  {
    var k0 :| k0 in coords;
    var rest := coords - {k0};
    ComparatorReflexive(cmp, coords[k0]);
    if rest == map[] {
      forall x | x in coords ensures cmp(coords[k0], coords[x]) >= 0 {
        assert x !in rest;
      }
    } else {
      assert rest.Keys == coords.Keys - {k0};
      assert |rest.Keys| == |coords.Keys| - 1;
      MaximumExists(rest, cmp);
      var m :| m in rest && IsMaximal(rest, m, cmp);
      if cmp(coords[m], coords[k0]) >= 0 {
        forall x | x in coords ensures cmp(coords[m], coords[x]) >= 0 {
          if x != k0 {
            assert x in rest && cmp(rest[m], rest[x]) >= 0;
          }
        }
      } else {
        assert cmp(coords[k0], coords[m]) > 0;
        forall x | x in coords ensures cmp(coords[k0], coords[x]) >= 0 {
          if x != k0 {
            assert x in rest && cmp(rest[m], rest[x]) >= 0;
            AtLeastTransitive(cmp, coords[k0], coords[m], coords[x]);
          }
        }
      }
    }
  }

  /** Against a group whose greatest coordinates are those of `h0`, an entry
      with coordinates `c` is the greatest of the grown group exactly when it is
      at least `h0`. */
  lemma NewEntryGreatestIff<K, C(!new)>(coords: map<K, C>, entry: K, c: C, h0: K, cmp: (C, C) -> int)
    requires IsComparator(cmp)
    requires h0 in coords && IsMaximal(coords, h0, cmp)
    requires entry in coords ==> coords[entry] == c
    ensures IsMaximal(coords[entry := c], entry, cmp) <==> cmp(c, coords[h0]) >= 0
  {
    var coords' := coords[entry := c];
    ComparatorReflexive(cmp, c);
    if cmp(c, coords[h0]) >= 0 {
      forall x | x in coords' ensures cmp(coords'[entry], coords'[x]) >= 0 {
        if x != entry {
          AtLeastTransitive(cmp, c, coords[h0], coords[x]);
        }
      }
    } else {
      assert coords'[h0] == coords[h0];
    }
  }

  /** An old entry other than the new one stays among the greatest exactly when
      it was among them and is at least the new entry. */
  lemma OldEntryGreatestIff<K, C(!new)>(coords: map<K, C>, entry: K, c: C, k: K, cmp: (C, C) -> int)
    requires IsComparator(cmp)
    requires k in coords && k != entry
    requires entry in coords ==> coords[entry] == c
    ensures IsMaximal(coords[entry := c], k, cmp) <==> IsMaximal(coords, k, cmp) && cmp(c, coords[k]) <= 0
  {
    var coords' := coords[entry := c];
    assert cmp(coords[k], c) >= 0 <==> cmp(c, coords[k]) <= 0;
    if IsMaximal(coords', k, cmp) {
      forall x | x in coords ensures cmp(coords[k], coords[x]) >= 0 {
        assert x in coords' && coords'[x] == coords[x];
      }
      assert cmp(coords'[k], coords'[entry]) >= 0;
    }
  }

  /** The holders of the tag compare equal to one another, so a new entry
      compares with each of them as it does with any one of them. */
  lemma HoldersSeenAlike<K, C(!new)>(coords: map<K, C>, tagged: set<K>, c: C, h: K, h0: K, cmp: (C, C) -> int)
    requires IsComparator(cmp)
    requires TagsMaximal(coords, tagged, cmp)
    requires h in coords && h in tagged && h0 in coords && h0 in tagged
    ensures cmp(c, coords[h]) > 0 <==> cmp(c, coords[h0]) > 0
    ensures cmp(c, coords[h]) < 0 <==> cmp(c, coords[h0]) < 0
  {
    assert IsMaximal(coords, h, cmp) && IsMaximal(coords, h0, cmp);
    assert cmp(coords[h], coords[h0]) >= 0 && cmp(coords[h0], coords[h]) >= 0;
    EqualSeenAlike(cmp, coords[h], coords[h0], c);
  }

  /** When the tag sits on exactly the greatest entries and a new entry with
      coordinates `c` is compared with the holders as `addArtifactToGroup` does,
      the tag again sits on exactly the greatest entries of the grown group. */
  lemma LastVersionStaysOnGreatest<K, C(!new)>(
    coords: map<K, C>, tagged: set<K>, entry: K, c: C, tagged': set<K>, cmp: (C, C) -> int)
    requires IsComparator(cmp)
    requires TagsMaximal(coords, tagged, cmp)
    requires entry in coords ==> coords[entry] == c
    // entries that held no tag and are not the new one gain none
    requires forall k :: k in coords && k != entry && k !in tagged ==> k !in tagged'
    // a holder other than the new entry loses the tag exactly when the new entry is greater
    requires forall h :: h in coords && h in tagged && h != entry ==> (h in tagged' <==> cmp(c, coords[h]) <= 0)
    // the new entry ends tagged after comparisons that all came out "at least",
    // and untagged after comparisons that all came out "less"
    requires (forall h :: h in coords && h in tagged ==> cmp(c, coords[h]) >= 0) ==> entry in tagged'
    requires (exists h :: h in coords && h in tagged) && (forall h :: h in coords && h in tagged ==> cmp(c, coords[h]) < 0)
             ==> entry !in tagged'
    ensures TagsMaximal(coords[entry := c], tagged', cmp)
  {
    var coords' := coords[entry := c];
    if h0 :| h0 in coords && h0 in tagged {
      assert IsMaximal(coords, h0, cmp);
      forall h | h in coords && h in tagged
        ensures (cmp(c, coords[h]) > 0 <==> cmp(c, coords[h0]) > 0) && (cmp(c, coords[h]) < 0 <==> cmp(c, coords[h0]) < 0)
      {
        HoldersSeenAlike(coords, tagged, c, h, h0, cmp);
      }
      forall k | k in coords' ensures k in tagged' <==> IsMaximal(coords', k, cmp) {
        if k == entry {
          NewEntryGreatestIff(coords, entry, c, h0, cmp);
        } else {
          OldEntryGreatestIff(coords, entry, c, k, cmp);
        }
      }
    } else {
      if coords != map[] {
        // a non-empty group has a greatest entry, and it would hold the tag
        MaximumExists(coords, cmp);
        assert false;
      }
      ComparatorReflexive(cmp, c);
      assert coords' == map[entry := c];
      assert IsMaximal(coords', entry, cmp);
    }
  }

  // ---------------------------------------------------------------------------
  // Entries and groups
  // ---------------------------------------------------------------------------

  class ArtifactEntry<C> {
    // no operation of the service changes the coordinates of an entry
    const artifactCoordinates: Option<C>
    var tagSet: set<ArtifactTag>

    constructor (artifactCoordinates: Option<C>, tagSet: set<ArtifactTag>)
      ensures this.artifactCoordinates == artifactCoordinates && this.tagSet == tagSet
    {
      this.artifactCoordinates := artifactCoordinates;
      this.tagSet := tagSet;
    }
  }

  class RepositoryArtifactIdGroup<C> {
    var artifactEntries: set<ArtifactEntry<C>>

    constructor ()
      ensures artifactEntries == {}
    {
      artifactEntries := {};
    }
  }

  /** Every entry of the group has coordinates. */
  ghost predicate HasCoordinates<C>(entries: set<ArtifactEntry<C>>)
  {
    forall e :: e in entries ==> e.artifactCoordinates.Some?
  }

  ghost function CoordinatesOf<C>(entries: set<ArtifactEntry<C>>): map<ArtifactEntry<C>, C>
    requires HasCoordinates(entries)
  {
    map e | e in entries :: e.artifactCoordinates.value
  }

  ghost function HoldersOf<C>(entries: set<ArtifactEntry<C>>): set<ArtifactEntry<C>>
    reads entries
  {
    set e | e in entries && LastVersion in e.tagSet
  }

  /** The tag invariant of a group: it holds `LAST_VERSION` on exactly the
      entries with the greatest coordinates. */
  ghost predicate LastVersionOnGreatest<C(!new)>(group: RepositoryArtifactIdGroup<C>, cmp: (C, C) -> int)
    reads group, group.artifactEntries
  {
    && HasCoordinates(group.artifactEntries)
    && TagsMaximal(CoordinatesOf(group.artifactEntries), HoldersOf(group.artifactEntries), cmp)
  }

  // ---------------------------------------------------------------------------
  // The service
  // ---------------------------------------------------------------------------

  /** `findLastVersionArtifactEntries`: the entries holding the tag, or, when
      there are none, the new entry alone. */
  function FindLastVersionArtifactEntries<C>(
    artifactGroup: RepositoryArtifactIdGroup<C>, defaultArtifactEntry: ArtifactEntry<C>)
    : (r: set<ArtifactEntry<C>>)
    reads artifactGroup, artifactGroup.artifactEntries
    ensures forall e :: e in artifactGroup.artifactEntries && LastVersion in e.tagSet ==> e in r
    ensures (exists e :: e in artifactGroup.artifactEntries && LastVersion in e.tagSet) ==>
              forall e :: e in r ==> e in artifactGroup.artifactEntries && LastVersion in e.tagSet
    ensures (forall e :: e in artifactGroup.artifactEntries ==> LastVersion !in e.tagSet) ==>
              r == {defaultArtifactEntry}
  {
    var result := set e | e in artifactGroup.artifactEntries && LastVersion in e.tagSet;
    if |result| == 0 then {defaultArtifactEntry} else result
  }

  /** `checkAndUpdateLastVersionTagIfNeeded`: compares the new entry `entity`
      with a holder and moves the tag accordingly; the result is the entry the
      source saves. The two may be the same object. */
  method CheckAndUpdateLastVersionTagIfNeeded<C>(
    lastVersionEntry: ArtifactEntry<C>, entity: ArtifactEntry<C>, cmp: (C, C) -> int)
    returns (result: ArtifactEntry<C>)
    requires entity.artifactCoordinates.Some? && lastVersionEntry.artifactCoordinates.Some?
    modifies entity`tagSet, lastVersionEntry`tagSet
    ensures var comparison := cmp(entity.artifactCoordinates.value, lastVersionEntry.artifactCoordinates.value);
            && (comparison == 0 ==>
                  && entity.tagSet == old(entity.tagSet) + {LastVersion}
                  && (lastVersionEntry != entity ==> lastVersionEntry.tagSet == old(lastVersionEntry.tagSet))
                  && result == entity)
            && (comparison > 0 ==>
                  && lastVersionEntry.tagSet == old(lastVersionEntry.tagSet) - {LastVersion}
                  && (lastVersionEntry != entity ==> entity.tagSet == old(entity.tagSet) + {LastVersion})
                  && result == lastVersionEntry)
            && (comparison < 0 ==>
                  && entity.tagSet == old(entity.tagSet) - {LastVersion}
                  && (lastVersionEntry != entity ==> lastVersionEntry.tagSet == old(lastVersionEntry.tagSet))
                  && result == entity)
  {
    result := entity;
    var artifactCoordinatesComparison := cmp(entity.artifactCoordinates.value, lastVersionEntry.artifactCoordinates.value);
    if artifactCoordinatesComparison == 0 {
      entity.tagSet := entity.tagSet + {LastVersion};
    } else if artifactCoordinatesComparison > 0 {
      entity.tagSet := entity.tagSet + {LastVersion};
      lastVersionEntry.tagSet := lastVersionEntry.tagSet - {LastVersion};
      result := lastVersionEntry;
    } else {
      entity.tagSet := entity.tagSet - {LastVersion};
    }
  }

  /** The stream over the candidates in `addArtifactToGroup`: the new entry is
      compared with every candidate, in whatever order the set yields them. */
  method UpdateLastVersionEntries<C(!new)>(
    lastVersionEntries: set<ArtifactEntry<C>>, artifactEntry: ArtifactEntry<C>, cmp: (C, C) -> int)
    requires artifactEntry.artifactCoordinates.Some?
    // the comparator is reflexive, as `Comparable` requires
    requires cmp(artifactEntry.artifactCoordinates.value, artifactEntry.artifactCoordinates.value) == 0
    requires forall h :: h in lastVersionEntries ==> h.artifactCoordinates.Some?
    modifies lastVersionEntries`tagSet, artifactEntry`tagSet
    ensures artifactEntry.tagSet - {LastVersion} == old(artifactEntry.tagSet) - {LastVersion}
    ensures forall h :: h in lastVersionEntries && h != artifactEntry ==>
              h.tagSet == if cmp(artifactEntry.artifactCoordinates.value, h.artifactCoordinates.value) > 0
                          then old(h.tagSet) - {LastVersion} else old(h.tagSet)
    ensures lastVersionEntries != {}
            && (forall h :: h in lastVersionEntries ==>
                  cmp(artifactEntry.artifactCoordinates.value, h.artifactCoordinates.value) >= 0)
            ==> LastVersion in artifactEntry.tagSet
    ensures lastVersionEntries != {}
            && (forall h :: h in lastVersionEntries ==>
                  cmp(artifactEntry.artifactCoordinates.value, h.artifactCoordinates.value) < 0)
            ==> LastVersion !in artifactEntry.tagSet
  {
    var c := artifactEntry.artifactCoordinates.value;
    var remaining := lastVersionEntries;
    ghost var done: set<ArtifactEntry<C>> := {};
    while remaining != {}
      invariant remaining !! done && remaining + done == lastVersionEntries
      invariant artifactEntry.tagSet - {LastVersion} == old(artifactEntry.tagSet) - {LastVersion}
      invariant forall h :: h in remaining && h != artifactEntry ==> h.tagSet == old(h.tagSet)
      invariant forall h :: h in done && h != artifactEntry ==>
                  h.tagSet == if cmp(c, h.artifactCoordinates.value) > 0
                              then old(h.tagSet) - {LastVersion} else old(h.tagSet)
      invariant done != {} && (forall h :: h in done ==> cmp(c, h.artifactCoordinates.value) >= 0) ==>
                  LastVersion in artifactEntry.tagSet
      invariant done != {} && (forall h :: h in done ==> cmp(c, h.artifactCoordinates.value) < 0) ==>
                  LastVersion !in artifactEntry.tagSet
      decreases remaining
    {
      var lastVersionEntry :| lastVersionEntry in remaining;
      var _ := CheckAndUpdateLastVersionTagIfNeeded(lastVersionEntry, artifactEntry, cmp);
      remaining := remaining - {lastVersionEntry};
      done := done + {lastVersionEntry};
    }
  }

  /** Adding an entry with coordinates adds them to the group's. */
  lemma CoordinatesOfAdded<C>(entries: set<ArtifactEntry<C>>, entry: ArtifactEntry<C>)
    requires HasCoordinates(entries) && entry.artifactCoordinates.Some?
    ensures HasCoordinates(entries + {entry})
    ensures CoordinatesOf(entries + {entry}) == CoordinatesOf(entries)[entry := entry.artifactCoordinates.value]
  {
    var coords' := CoordinatesOf(entries + {entry});
    var expected := CoordinatesOf(entries)[entry := entry.artifactCoordinates.value];
    assert coords'.Keys == expected.Keys;
  }

  /** How the holders change when `entry` joins `entries`: from `holders`
      before to `tagged'` after. An entry that held no tag gains none, a holder
      keeps the tag exactly when the new entry is not greater, and the new
      entry holds it after comparisons that all came out "at least", and not
      after comparisons that all came out "less". */
  ghost predicate HoldersAfterJoin<C>(
    entries: set<ArtifactEntry<C>>, entry: ArtifactEntry<C>, holders: set<ArtifactEntry<C>>,
    tagged': set<ArtifactEntry<C>>, cmp: (C, C) -> int)
  {
    && entry.artifactCoordinates.Some? && HasCoordinates(holders)
    && (forall k :: k in entries && k != entry && k !in holders ==> k !in tagged')
    && (forall h :: h in holders && h != entry ==>
          (h in tagged' <==> cmp(entry.artifactCoordinates.value, h.artifactCoordinates.value) <= 0))
    && ((forall h :: h in holders ==> cmp(entry.artifactCoordinates.value, h.artifactCoordinates.value) >= 0)
        ==> entry in tagged')
    && (holders != {} && (forall h :: h in holders ==> cmp(entry.artifactCoordinates.value, h.artifactCoordinates.value) < 0)
        ==> entry !in tagged')
  }

  /** The tag invariant survives an entry joining the group when the holders
      change as `addArtifactToGroup` changes them. */
  lemma JoinKeepsTagsMaximal<C(!new)>(
    entries: set<ArtifactEntry<C>>, entry: ArtifactEntry<C>, holders: set<ArtifactEntry<C>>,
    tagged': set<ArtifactEntry<C>>, cmp: (C, C) -> int)
    requires IsComparator(cmp)
    requires HasCoordinates(entries) && holders <= entries
    requires TagsMaximal(CoordinatesOf(entries), holders, cmp)
    requires HoldersAfterJoin(entries, entry, holders, tagged', cmp)
    ensures HasCoordinates(entries + {entry})
    ensures TagsMaximal(CoordinatesOf(entries + {entry}), tagged', cmp)
  {
    var coords := CoordinatesOf(entries);
    CoordinatesOfAdded(entries, entry);
    forall h | h in coords ensures coords[h] == h.artifactCoordinates.value && h in entries {
    }
    LastVersionStaysOnGreatest(coords, holders, entry, entry.artifactCoordinates.value, tagged', cmp);
  }

  /** The same, on a group whose entries are now `entries` and `entry`. */
  lemma JoinKeepsLastVersionOnGreatest<C(!new)>(
    group: RepositoryArtifactIdGroup<C>, entries: set<ArtifactEntry<C>>, entry: ArtifactEntry<C>,
    holders: set<ArtifactEntry<C>>, cmp: (C, C) -> int)
    requires IsComparator(cmp)
    requires HasCoordinates(entries) && holders <= entries
    requires TagsMaximal(CoordinatesOf(entries), holders, cmp)
    requires group.artifactEntries == entries + {entry}
    requires HoldersAfterJoin(entries, entry, holders, HoldersOf(group.artifactEntries), cmp)
    ensures LastVersionOnGreatest(group, cmp)
  {
    JoinKeepsTagsMaximal(entries, entry, holders, HoldersOf(group.artifactEntries), cmp);
  }

  /** The first half of `addArtifactToGroup`: the new entry is compared with
      the holders of the tag, or with itself when there are none, and the tag
      moves accordingly. */
  method UpdateLastVersionTag<C(!new)>(
    artifactGroup: RepositoryArtifactIdGroup<C>, artifactEntry: ArtifactEntry<C>, cmp: (C, C) -> int)
    requires HasCoordinates(artifactGroup.artifactEntries)
    requires artifactEntry.artifactCoordinates.Some?
    // the comparator is reflexive, as `Comparable` requires
    requires cmp(artifactEntry.artifactCoordinates.value, artifactEntry.artifactCoordinates.value) == 0
    modifies artifactGroup.artifactEntries`tagSet, artifactEntry`tagSet
    // tags other than LAST_VERSION never change
    ensures forall e :: e in artifactGroup.artifactEntries + {artifactEntry} ==>
              e.tagSet - {LastVersion} == old(e.tagSet) - {LastVersion}
    // an entry that is neither the new one nor a holder is untouched
    ensures forall e :: (e in artifactGroup.artifactEntries && e != artifactEntry
                         && LastVersion !in old(e.tagSet)) ==> e.tagSet == old(e.tagSet)
    // a holder loses the tag exactly when the new entry is greater
    ensures forall h :: (h in artifactGroup.artifactEntries && h != artifactEntry
                         && LastVersion in old(h.tagSet)) ==>
            h.tagSet == if cmp(artifactEntry.artifactCoordinates.value, h.artifactCoordinates.value) > 0
                        then old(h.tagSet) - {LastVersion} else old(h.tagSet)
    // it ends tagged when it is at least every holder, so also in a group
    // without holders, and untagged when it is below every one
    ensures (forall h :: h in old(HoldersOf(artifactGroup.artifactEntries)) ==>
               cmp(artifactEntry.artifactCoordinates.value, h.artifactCoordinates.value) >= 0)
            ==> LastVersion in artifactEntry.tagSet
    ensures old(HoldersOf(artifactGroup.artifactEntries)) != {}
            && (forall h :: h in old(HoldersOf(artifactGroup.artifactEntries)) ==>
                  cmp(artifactEntry.artifactCoordinates.value, h.artifactCoordinates.value) < 0)
            ==> LastVersion !in artifactEntry.tagSet
    // the same, on the holders of the group the entry is about to join
    ensures HoldersAfterJoin(artifactGroup.artifactEntries, artifactEntry, old(HoldersOf(artifactGroup.artifactEntries)),
                             HoldersOf(artifactGroup.artifactEntries + {artifactEntry}), cmp)
  {
    ghost var holders := HoldersOf(artifactGroup.artifactEntries);
    var lastVersionEntries := FindLastVersionArtifactEntries(artifactGroup, artifactEntry);
    if holders != {} {
      var w :| w in holders;
      assert w in artifactGroup.artifactEntries && LastVersion in w.tagSet;
      assert lastVersionEntries == holders;
    } else {
      assert lastVersionEntries == {artifactEntry};
    }
    UpdateLastVersionEntries(lastVersionEntries, artifactEntry, cmp);
    ghost var grown := artifactGroup.artifactEntries + {artifactEntry};
    assert artifactEntry in grown;
    forall e | e in grown ensures e.tagSet - {LastVersion} == old(e.tagSet) - {LastVersion} {
      if e != artifactEntry && e in lastVersionEntries {
        assert e in holders;
      }
    }
    forall h | h in holders && h != artifactEntry
      ensures h in HoldersOf(grown) <==> cmp(artifactEntry.artifactCoordinates.value, h.artifactCoordinates.value) <= 0
    {
      assert h in grown;
    }
  }

  /** `addArtifactToGroup`: moves the tag by comparing the new entry with the
      candidates, then adds the entry to the group. `ok` is false where
      `Assert.notNull` throws. */
  method AddArtifactToGroup<C(!new)>(
    artifactGroup: RepositoryArtifactIdGroup<C>, artifactEntry: ArtifactEntry<C>, cmp: (C, C) -> int)
    returns (ok: bool)
    requires HasCoordinates(artifactGroup.artifactEntries)
    // the comparator is reflexive at the new coordinates, as `Comparable` requires
    requires artifactEntry.artifactCoordinates.Some? ==>
               cmp(artifactEntry.artifactCoordinates.value, artifactEntry.artifactCoordinates.value) == 0
    modifies artifactGroup`artifactEntries, artifactGroup.artifactEntries`tagSet, artifactEntry`tagSet
    ensures ok == artifactEntry.artifactCoordinates.Some?
    ensures !ok ==> && artifactGroup.artifactEntries == old(artifactGroup.artifactEntries)
                    && artifactEntry.tagSet == old(artifactEntry.tagSet)
                    && forall e :: e in old(artifactGroup.artifactEntries) ==> e.tagSet == old(e.tagSet)
    ensures ok ==> artifactGroup.artifactEntries == old(artifactGroup.artifactEntries) + {artifactEntry}
    // tags other than LAST_VERSION never change
    ensures ok ==> forall e :: e in artifactGroup.artifactEntries ==>
                     e.tagSet - {LastVersion} == old(e.tagSet) - {LastVersion}
    // in a group without holders the new entry takes the tag
    ensures ok && old(HoldersOf(artifactGroup.artifactEntries)) == {} ==> LastVersion in artifactEntry.tagSet
    // the holders move as described by `HoldersAfterJoin`
    ensures ok ==> HoldersAfterJoin(old(artifactGroup.artifactEntries), artifactEntry,
                                    old(HoldersOf(artifactGroup.artifactEntries)),
                                    HoldersOf(artifactGroup.artifactEntries), cmp)
    // for a comparator that keeps the whole `Comparable` contract, the tag invariant is kept
    ensures ok && IsComparator(cmp) && old(LastVersionOnGreatest(artifactGroup, cmp)) ==>
              LastVersionOnGreatest(artifactGroup, cmp)
  {
    if artifactEntry.artifactCoordinates.None? {
      return false;
    }
    UpdateLastVersionTag(artifactGroup, artifactEntry, cmp);
    ghost var tagged := HoldersOf(artifactGroup.artifactEntries + {artifactEntry});
    artifactGroup.artifactEntries := artifactGroup.artifactEntries + {artifactEntry};
    ok := true;
    assert HoldersOf(artifactGroup.artifactEntries) == tagged;
    if IsComparator(cmp) && old(LastVersionOnGreatest(artifactGroup, cmp)) {
      JoinKeepsLastVersionOnGreatest(artifactGroup, old(artifactGroup.artifactEntries), artifactEntry,
                                     old(HoldersOf(artifactGroup.artifactEntries)), cmp);
    }
  }
}
