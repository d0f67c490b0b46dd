/*
 * The saved `locations` array: merging newly fetched locations into it
 * (`get_saved_gmb_locations`), parsing the per-location share flags of the
 * preferences form, and picking the location a post goes to.
 */
module GmbLocations {
  import opened Wrappers
  import opened PhpValues
  import opened GmbOptions

  /** A location as fetched from Google: its resource name, its display
      name and the first line of its address, either of which may be
      missing from the response. */
  datatype Fetched = Fetched(name: string, locationName: Option<string>, addressLine: Option<string>)

  /** `$locations[ $key ]`: the first entry with that key, if any. */
  function Lookup(locs: Locations, key: string): Option<Location> {
    if |locs| == 0 then None
    else if locs[0].key == key then Some(locs[0].loc)
    else Lookup(locs[1..], key)
  }

  predicate HasKey(locs: Locations, key: string) {
    Lookup(locs, key).Some?
  }

  /** A key is found exactly when some entry carries it. */
  lemma {:induction false} HasKeyIffSomeEntry(locs: Locations, key: string)
    ensures HasKey(locs, key) <==> exists i :: 0 <= i < |locs| && locs[i].key == key
  {
    if |locs| > 0 && locs[0].key != key {
      HasKeyIffSomeEntry(locs[1..], key);
      assert forall i :: 1 <= i < |locs| ==> locs[i] == locs[1..][i - 1];
      if HasKey(locs, key) {
        var j :| 0 <= j < |locs[1..]| && locs[1..][j].key == key;
        assert locs[j + 1].key == key;
      }
    }
  }

  /** PHP arrays never repeat a key. */
  predicate UniqueKeys(locs: Locations) {
    forall i, j :: 0 <= i < j < |locs| ==> locs[i].key != locs[j].key
  }

  /** `$locations[ $key ] = $loc`: replaces the entry in place when the key
      exists, appends otherwise. */
  function Assign(locs: Locations, key: string, loc: Location): (r: Locations)
    ensures |r| == if HasKey(locs, key) then |locs| else |locs| + 1
    ensures forall i :: 0 <= i < |locs| ==> r[i].key == locs[i].key
    ensures forall i :: 0 <= i < |locs| && locs[i].key != key ==> r[i] == locs[i]
    ensures !HasKey(locs, key) ==> r == locs + [LocEntry(key, loc)]
    ensures forall k :: Lookup(r, k) == if k == key then Some(loc) else Lookup(locs, k)
  {
    if |locs| == 0 then [LocEntry(key, loc)]
    else if locs[0].key == key then [LocEntry(key, loc)] + locs[1..]
    else
      var rest := Assign(locs[1..], key, loc);
      assert forall k :: Lookup([locs[0]] + rest, k) == if k == locs[0].key then Some(locs[0].loc) else Lookup(rest, k);
      [locs[0]] + rest
  }

  /** A location seen for the first time: named from the response and shared. */
  function NewLocation(f: Fetched): Location {
    Location(f.locationName, f.addressLine, true)
  }

  /** One round of the merge loop: unknown names are added, known ones kept. */
  function MergeOne(locs: Locations, f: Fetched): (r: Locations)
    ensures |locs| <= |r| && r[..|locs|] == locs
    ensures forall k :: Lookup(r, k) == if k == f.name && !HasKey(locs, k) then Some(NewLocation(f)) else Lookup(locs, k)
  {
    if HasKey(locs, f.name) then locs else Assign(locs, f.name, NewLocation(f))
  }

  /** The merge loop over every fetched location, in order. Saved entries
      are kept as they are and in place; the entries it adds are shared. */
  function MergeAll(locs: Locations, fetched: seq<Fetched>): (r: Locations)
    ensures |locs| <= |r| && r[..|locs|] == locs
    ensures forall i :: |locs| <= i < |r| ==> r[i].loc.share
    decreases |fetched|
  {
    if |fetched| == 0 then locs
    else
      var next := MergeOne(locs, fetched[0]);
      assert forall i :: |locs| <= i < |next| ==> next[i].loc.share;
      MergeAll(next, fetched[1..])
  }

  /** A key the merge has seen stays saved with the same value. */
  lemma {:induction false} MergeAllKeeps(locs: Locations, fetched: seq<Fetched>, key: string)
    requires HasKey(locs, key)
    ensures Lookup(MergeAll(locs, fetched), key) == Lookup(locs, key)
    decreases |fetched|
  {
    if |fetched| > 0 {
      MergeAllKeeps(MergeOne(locs, fetched[0]), fetched[1..], key);
    }
  }

  /** After the merge every fetched name is saved, and nothing else was
      added: a key is saved exactly when it was saved before or fetched. */
  lemma {:induction false} MergeAllKeys(locs: Locations, fetched: seq<Fetched>, key: string)
    ensures HasKey(MergeAll(locs, fetched), key) <==>
            HasKey(locs, key) || exists i :: 0 <= i < |fetched| && fetched[i].name == key
    decreases |fetched|
  {
    if |fetched| > 0 {
      var next := MergeOne(locs, fetched[0]);
      MergeAllKeys(next, fetched[1..], key);
      assert forall i :: 1 <= i < |fetched| ==> fetched[i] == fetched[1..][i - 1];
      if exists i :: 0 <= i < |fetched| && fetched[i].name == key {
        var i :| 0 <= i < |fetched| && fetched[i].name == key;
        if i > 0 {
          assert fetched[1..][i - 1].name == key;
        }
      }
    }
  }

  /** A location first seen by the merge is saved shared, under the name
      and address Google reported for its first occurrence. */
  lemma {:induction false} MergeAllAddsShared(locs: Locations, fetched: seq<Fetched>, i: nat)
    requires i < |fetched| && !HasKey(locs, fetched[i].name)
    requires forall j :: 0 <= j < i ==> fetched[j].name != fetched[i].name
    ensures Lookup(MergeAll(locs, fetched), fetched[i].name) == Some(NewLocation(fetched[i]))
    decreases |fetched|
  {
    var next := MergeOne(locs, fetched[0]);
    if i == 0 {
      MergeAllKeeps(next, fetched[1..], fetched[0].name);
    } else {
      assert fetched[1..][i - 1] == fetched[i];
      MergeAllAddsShared(next, fetched[1..], i - 1);
    }
  }

  /** The merge keeps keys unique. */
  lemma {:induction false} MergeAllKeepsKeysUnique(locs: Locations, fetched: seq<Fetched>)
    requires UniqueKeys(locs)
    ensures UniqueKeys(MergeAll(locs, fetched))
    decreases |fetched|
  {
    if |fetched| > 0 {
      var next := MergeOne(locs, fetched[0]);
      if !HasKey(locs, fetched[0].name) {
        HasKeyIffSomeEntry(locs, fetched[0].name);
        assert next == locs + [LocEntry(fetched[0].name, NewLocation(fetched[0]))];
      }
      MergeAllKeepsKeysUnique(next, fetched[1..]);
    }
  }

  /** `get_saved_gmb_locations`: nothing fetched means no locations (and no
      write); otherwise the merged array, which is also written back. */
  function SavedLocations(locs: Locations, fetched: seq<Fetched>): (r: Option<Locations>)
    ensures r.None? <==> |fetched| == 0
    ensures r.Some? ==> |locs| <= |r.value| && r.value[..|locs|] == locs
    ensures r.Some? ==> HasKey(r.value, fetched[0].name)
    ensures r.Some? ==> r.value == MergeAll(locs, fetched)
  {
    if |fetched| == 0 then None
    else
      var merged := MergeAll(locs, fetched);
      MergeAllKeys(locs, fetched, fetched[0].name);
      Some(merged)
  }

  /** When every fetched name is already saved, the merge changes nothing. */
  lemma {:induction false} MergeAllKnownIsIdentity(locs: Locations, fetched: seq<Fetched>)
    requires forall i :: 0 <= i < |fetched| ==> HasKey(locs, fetched[i].name)
    ensures MergeAll(locs, fetched) == locs
    decreases |fetched|
  {
    if |fetched| > 0 {
      assert MergeOne(locs, fetched[0]) == locs;
      assert forall i :: 0 <= i < |fetched[1..]| ==> fetched[1..][i] == fetched[i + 1];
      MergeAllKnownIsIdentity(locs, fetched[1..]);
    }
  }

  /** A second merge with the same fetched list changes nothing: the merge
      is idempotent. */
  lemma MergeIsIdempotent(locs: Locations, fetched: seq<Fetched>)
    ensures SavedLocations(locs, fetched).Some? ==>
              SavedLocations(SavedLocations(locs, fetched).value, fetched) == SavedLocations(locs, fetched)
  {
    if |fetched| > 0 {
      var merged := MergeAll(locs, fetched);
      forall i | 0 <= i < |fetched|
        ensures HasKey(merged, fetched[i].name)
      {
        MergeAllKeys(locs, fetched, fetched[i].name);
      }
      MergeAllKnownIsIdentity(merged, fetched);
    }
  }

  /** One row of the `locations` part of the preferences form: its key and
      the posted `share_to_location` value, if one was posted. */
  datatype FlagEntry = FlagEntry(key: string, shareValue: Option<string>)

  /** The submitted share value after `FILTER_SANITIZE_NUMBER_INT`, read
      with `! empty()`. */
  predicate ShareRequested(e: FlagEntry) {
    e.shareValue.Some? && !EmptyString(SanitizeNumberInt(e.shareValue.value))
  }

  predicate UniqueFormKeys(form: seq<FlagEntry>) {
    forall i, j :: 0 <= i < j < |form| ==> form[i].key != form[j].key
  }

  predicate InForm(form: seq<FlagEntry>, key: string) {
    exists i :: 0 <= i < |form| && form[i].key == key
  }

  /** The entry one form row leaves behind: a saved location keeps its
      name and address and takes the posted flag; a key that is not saved
      gets an entry of its own holding only the flag, off. */
  function Flagged(locs: Locations, e: FlagEntry): Location {
    match Lookup(locs, e.key)
    case Some(l) => l.(share := ShareRequested(e))
    case None => Location(None, None, false)
  }

  /** A key is in the form when the first row carries it or a later one does. */
  lemma InFormCons(form: seq<FlagEntry>, key: string)
    requires |form| > 0
    ensures InForm(form, key) <==> form[0].key == key || InForm(form[1..], key)
  {
    if InForm(form, key) && form[0].key != key {
      var i :| 0 <= i < |form| && form[i].key == key;
      assert form[1..][i - 1] == form[i];
    }
    if InForm(form[1..], key) {
      var i :| 0 <= i < |form[1..]| && form[1..][i].key == key;
      assert form[i + 1] == form[1..][i];
    }
  }

  /** The loop over the form rows of `wpl_update_gmb_preferences`: saved
      entries keep their places, and afterwards exactly the saved keys and
      the form's keys are present. */
  function ApplyShareFlags(locs: Locations, form: seq<FlagEntry>): (r: Locations)
    ensures |locs| <= |r| && forall i :: 0 <= i < |locs| ==> r[i].key == locs[i].key
    ensures forall key :: HasKey(r, key) <==> HasKey(locs, key) || InForm(form, key)
    decreases |form|
  {
    if |form| == 0 then locs
    else
      var next := Assign(locs, form[0].key, Flagged(locs, form[0]));
      forall key ensures InForm(form, key) <==> form[0].key == key || InForm(form[1..], key) {
        InFormCons(form, key);
      }
      ApplyShareFlags(next, form[1..])
  }

  /** Keys the form does not mention keep their entries. */
  lemma {:induction false} ApplyShareFlagsKeepsOthers(locs: Locations, form: seq<FlagEntry>, key: string)
    requires !InForm(form, key)
    ensures Lookup(ApplyShareFlags(locs, form), key) == Lookup(locs, key)
    decreases |form|
  {
    if |form| > 0 {
      assert form[0].key != key;
      forall j | 0 <= j < |form[1..]|
        ensures form[1..][j].key != key
      {
        assert form[1..][j] == form[j + 1];
      }
      ApplyShareFlagsKeepsOthers(Assign(locs, form[0].key, Flagged(locs, form[0])), form[1..], key);
    }
  }

  /** Each form row sets its key's entry: the share flag is on exactly when
      the location was already saved and a non-empty value was posted.
      Rows have distinct keys, as the keys of a PHP array do. */
  lemma {:induction false} ApplyShareFlagsSetsRow(locs: Locations, form: seq<FlagEntry>, i: nat)
    requires UniqueFormKeys(form) && i < |form|
    ensures Lookup(ApplyShareFlags(locs, form), form[i].key) == Some(Flagged(locs, form[i]))
    ensures Flagged(locs, form[i]).share <==> HasKey(locs, form[i].key) && ShareRequested(form[i])
    decreases |form|
  {
    var next := Assign(locs, form[0].key, Flagged(locs, form[0]));
    if i == 0 {
      forall j | 0 <= j < |form[1..]|
        ensures form[1..][j].key != form[0].key
      {
        assert form[1..][j] == form[j + 1];
      }
      ApplyShareFlagsKeepsOthers(next, form[1..], form[0].key);
    } else {
      assert form[1..][i - 1] == form[i];
      assert UniqueFormKeys(form[1..]) by {
        forall a, b | 0 <= a < b < |form[1..]|
          ensures form[1..][a].key != form[1..][b].key
        {
          assert form[1..][a] == form[a + 1] && form[1..][b] == form[b + 1];
        }
      }
      ApplyShareFlagsSetsRow(next, form[1..], i - 1);
      assert form[i].key != form[0].key;
      assert Lookup(next, form[i].key) == Lookup(locs, form[i].key);
    }
  }

  /** Parsing is not idempotent: a form row for a key that is not saved
      leaves that key unshared the first time, and shared when the same form
      is submitted again. */
  lemma ShareFlagsNotIdempotent()
    ensures var form := [FlagEntry("locations/1", Some("1"))];
            var once := ApplyShareFlags([], form);
            Lookup(once, "locations/1") == Some(Location(None, None, false)) &&
            Lookup(ApplyShareFlags(once, form), "locations/1") == Some(Location(None, None, true))
  {
    var form := [FlagEntry("locations/1", Some("1"))];
    assert ShareRequested(form[0]) by {
      assert SanitizeNumberInt("1") == "1";
    }
  }

  /** The key of the first location with sharing on, in array order. */
  function FirstShared(locs: Locations): (r: Option<string>)
    ensures r.None? <==> forall i :: 0 <= i < |locs| ==> !locs[i].loc.share
    ensures r.Some? ==> exists i :: 0 <= i < |locs| && locs[i].key == r.value && locs[i].loc.share &&
                                     forall j :: 0 <= j < i ==> !locs[j].loc.share
  {
    if |locs| == 0 then None
    else if locs[0].loc.share then Some(locs[0].key)
    else
      var r := FirstShared(locs[1..]);
      assert forall i :: 1 <= i < |locs| ==> locs[i] == locs[1..][i - 1];
      r
  }
}
