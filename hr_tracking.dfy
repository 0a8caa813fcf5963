/** The HR dashboard's live tracking tab: active marketers grouped into one map marker per
    coordinate string, and the once-a-second increment of each marketer's time at location. */
module HrTracking {
  import opened JsText
  import opened Backend
  import opened ClockFormat

  // ---------------------------------------------------------------------------
  // Grouping by coordinates (updateMapMarkers)
  // ---------------------------------------------------------------------------

  /** The distinct coordinate strings of `ms` in order of first appearance: the keys of the
      `locationGroups` object in their enumeration order. */
  function GroupKeys(ms: seq<ActiveMarketer>): (keys: seq<string>)
    ensures |keys| <= |ms|
  {
    if ms == [] then []
    else
      var keys := GroupKeys(ms[..|ms| - 1]);
      var c := ms[|ms| - 1].coordinates;
      if c in keys then keys else keys + [c]
  }

  /** The marketers of `ms` whose coordinate string is `key`, in input order. */
  function GroupOf(ms: seq<ActiveMarketer>, key: string): (group: seq<ActiveMarketer>)
    ensures |group| <= |ms|
  {
    if ms == [] then []
    else GroupOf(ms[..|ms| - 1], key) + (if ms[|ms| - 1].coordinates == key then [ms[|ms| - 1]] else [])
  }

  lemma {:induction false} GroupKeysSpec(ms: seq<ActiveMarketer>)
    ensures forall i, j :: 0 <= i < j < |GroupKeys(ms)| ==> GroupKeys(ms)[i] != GroupKeys(ms)[j]
    ensures forall k :: k in GroupKeys(ms) <==> exists i :: 0 <= i < |ms| && ms[i].coordinates == k
  {
    if ms != [] {
      var init := ms[..|ms| - 1];
      GroupKeysSpec(init);
      forall k | k in GroupKeys(ms) ensures exists i :: 0 <= i < |ms| && ms[i].coordinates == k {
        if k in GroupKeys(init) {
          var i :| 0 <= i < |init| && init[i].coordinates == k;
          assert ms[i] == init[i];
        } else {
          assert ms[|ms| - 1].coordinates == k;
        }
      }
      forall k | exists i :: 0 <= i < |ms| && ms[i].coordinates == k ensures k in GroupKeys(ms) {
        var i :| 0 <= i < |ms| && ms[i].coordinates == k;
        if i < |ms| - 1 {
          assert init[i] == ms[i];
        }
      }
    }
  }

  lemma {:induction false} GroupOfSpec(ms: seq<ActiveMarketer>, key: string)
    ensures forall m :: m in GroupOf(ms, key) ==> m.coordinates == key && m in ms
    ensures |GroupOf(ms, key)| > 0 <==> key in GroupKeys(ms)
  {
    if ms != [] {
      var init := ms[..|ms| - 1];
      GroupOfSpec(init, key);
      assert ms == init + [ms[|ms| - 1]];
    }
  }

  /** Filtering a concatenation filters each part and keeps them in order. */
  lemma {:induction false} GroupOfAppend(a: seq<ActiveMarketer>, b: seq<ActiveMarketer>, key: string)
    ensures GroupOf(a + b, key) == GroupOf(a, key) + GroupOf(b, key)
    decreases |b|
  {
    if b == [] {
      assert a + b == a;
    } else {
      var b' := b[..|b| - 1];
      assert (a + b)[..|a + b| - 1] == a + b';
      GroupOfAppend(a, b', key);
    }
  }

  /** Every marketer lands in the group of its own coordinates and in no other group. */
  lemma EveryMarketerInExactlyOneGroup(ms: seq<ActiveMarketer>, i: nat)
    requires i < |ms|
    ensures ms[i].coordinates in GroupKeys(ms)
    ensures ms[i] in GroupOf(ms, ms[i].coordinates)
    ensures forall k :: k in GroupKeys(ms) && ms[i] in GroupOf(ms, k) ==> k == ms[i].coordinates
  {
    GroupKeysSpec(ms);
    InOwnGroup(ms, i);
    forall k | k in GroupKeys(ms) && ms[i] in GroupOf(ms, k) ensures k == ms[i].coordinates {
      GroupOfSpec(ms, k);
    }
  }

  lemma {:induction false} InOwnGroup(ms: seq<ActiveMarketer>, i: nat)
    requires i < |ms|
    ensures ms[i] in GroupOf(ms, ms[i].coordinates)
  {
    var init := ms[..|ms| - 1];
    if i < |ms| - 1 {
      InOwnGroup(init, i);
      assert init[i] == ms[i];
    }
  }

  /** The sizes of the groups of the given keys. */
  function SizeSum(ms: seq<ActiveMarketer>, keys: seq<string>): nat {
    if keys == [] then 0 else |GroupOf(ms, keys[0])| + SizeSum(ms, keys[1..])
  }

  /** The group sizes add up to the number of active marketers. */
  lemma {:induction false} GroupSizesSumToTotal(ms: seq<ActiveMarketer>)
    ensures SizeSum(ms, GroupKeys(ms)) == |ms|
  {
    if ms != [] {
      var init := ms[..|ms| - 1];
      var m := ms[|ms| - 1];
      var keys := GroupKeys(init);
      GroupSizesSumToTotal(init);
      GroupKeysSpec(init);
      assert ms == init + [m];
      SizeSumStep(init, m, keys);
      if m.coordinates !in keys {
        SizeSumAppendKey(ms, keys, m.coordinates);
        GroupOfSpec(init, m.coordinates);
        assert GroupOf(ms, m.coordinates) == GroupOf(init, m.coordinates) + [m];
      }
    }
  }

  /** Adding marketer `m` grows the sum over distinct keys by one if `m`'s key is among them. */
  lemma {:induction false} SizeSumStep(init: seq<ActiveMarketer>, m: ActiveMarketer, keys: seq<string>)
    requires forall i, j :: 0 <= i < j < |keys| ==> keys[i] != keys[j]
    ensures SizeSum(init + [m], keys) == SizeSum(init, keys) + (if m.coordinates in keys then 1 else 0)
  {
    var ms := init + [m];
    assert ms[..|ms| - 1] == init;
    if keys != [] {
      SizeSumStep(init, m, keys[1..]);
      assert m.coordinates in keys[1..] ==> m.coordinates != keys[0] by {
        if m.coordinates in keys[1..] {
          var j :| 0 <= j < |keys[1..]| && keys[1..][j] == m.coordinates;
          assert keys[j + 1] == m.coordinates;
        }
      }
      assert m.coordinates in keys <==> m.coordinates == keys[0] || m.coordinates in keys[1..] by {
        assert keys == [keys[0]] + keys[1..];
      }
    }
  }

  lemma {:induction false} SizeSumAppendKey(ms: seq<ActiveMarketer>, keys: seq<string>, k: string)
    ensures SizeSum(ms, keys + [k]) == SizeSum(ms, keys) + |GroupOf(ms, k)|
  {
    if keys == [] {
      assert [k][1..] == [];
    } else {
      assert (keys + [k])[1..] == keys[1..] + [k];
      SizeSumAppendKey(ms, keys[1..], k);
    }
  }

  /** updateMapMarkers' first loop: it fills the `locationGroups` dictionary in place, opening a
      group the first time a coordinate string is seen and appending each marketer to its group. */
  method GroupByCoordinates(ms: seq<ActiveMarketer>) returns (keys: seq<string>, groups: map<string, seq<ActiveMarketer>>)
    ensures keys == GroupKeys(ms)
    ensures forall k :: k in groups <==> k in keys
    ensures forall k :: k in groups ==> groups[k] == GroupOf(ms, k)
  {
    keys, groups := [], map[];
    for i := 0 to |ms|
      invariant keys == GroupKeys(ms[..i])
      invariant forall k :: k in groups <==> k in keys
      invariant forall k :: k in groups ==> groups[k] == GroupOf(ms[..i], k)
    {
      var m := ms[i];
      assert ms[..i + 1][..i] == ms[..i] && ms[..i + 1][i] == m;
      if m.coordinates !in groups {
        groups := groups[m.coordinates := []];
        keys := keys + [m.coordinates];
        GroupOfSpec(ms[..i], m.coordinates);
      }
      groups := groups[m.coordinates := groups[m.coordinates] + [m]];
    }
    assert ms[..|ms|] == ms;
  }

  /** A marker's popup: the single-marketer form, or the list form with the group's size. */
  datatype Popup =
    | SinglePopup(name: string, shopName: string, coordinates: string)
    | GroupPopup(count: nat, entries: seq<(string, string)>, coordinates: string)

  datatype Marker = Marker(coordinates: string, popup: Popup)

  function PopupFor(key: string, group: seq<ActiveMarketer>): (p: Popup)
    requires |group| > 0
    ensures p.GroupPopup? <==> |group| > 1
    ensures p.GroupPopup? ==> p.count == |group| == |p.entries| && p.coordinates == key
    ensures p.SinglePopup? ==> p.name == group[0].name && p.shopName == group[0].shopName
  {
    if |group| == 1 then SinglePopup(group[0].name, group[0].shopName, group[0].coordinates)
    else GroupPopup(|group|, seq(|group|, i requires 0 <= i < |group| => (group[i].name, group[i].shopName)), key)
  }

  /** The list form names every marketer of the group with its shop, in group order. */
  lemma PopupForEntries(key: string, group: seq<ActiveMarketer>)
    requires |group| > 1
    ensures var p := PopupFor(key, group);
      forall i :: 0 <= i < |group| ==> p.entries[i] == (group[i].name, group[i].shopName)
  {
  }

  datatype MarkerUpdate = MapNotReady | Markers(markers: seq<Marker>)

  /** updateMapMarkers: without a map nothing happens; otherwise the old markers go and one
      marker is placed per distinct coordinate string, in first-seen order, whose popup lists
      exactly the marketers at that string. A missing list counts as empty. */
  method UpdateMapMarkers(mapReady: bool, active: Option<seq<ActiveMarketer>>) returns (u: MarkerUpdate)
    ensures !mapReady <==> u == MapNotReady
    ensures mapReady ==>
      var ms := if active.Some? then active.value else [];
      var keys := GroupKeys(ms);
      |u.markers| == |keys| && forall j :: 0 <= j < |keys| ==> IsMarkerFor(ms, keys[j], u.markers[j])
  {
    if !mapReady {
      return MapNotReady;
    }
    var ms := if active.Some? then active.value else [];
    if |ms| == 0 {
      return Markers([]);
    }
    var keys, groups := GroupByCoordinates(ms);
    var markers := PlaceMarkers(ms, keys, groups);
    return Markers(markers);
  }

  /** The marker of coordinate string `key`: its group is non-empty and its popup shows it. */
  predicate IsMarkerFor(ms: seq<ActiveMarketer>, key: string, m: Marker) {
    |GroupOf(ms, key)| > 0 && m == Marker(key, PopupFor(key, GroupOf(ms, key)))
  }

  /** updateMapMarkers' second loop: one marker per key of the dictionary, in key order. */
  method PlaceMarkers(ms: seq<ActiveMarketer>, keys: seq<string>, groups: map<string, seq<ActiveMarketer>>)
    returns (markers: seq<Marker>)
    requires forall k :: k in keys ==> k in GroupKeys(ms) && k in groups && groups[k] == GroupOf(ms, k)
    ensures |markers| == |keys| && forall j :: 0 <= j < |keys| ==> IsMarkerFor(ms, keys[j], markers[j])
  {
    markers := [];
    for j := 0 to |keys|
      invariant |markers| == j
      invariant forall i :: 0 <= i < j ==> IsMarkerFor(ms, keys[i], markers[i])
    {
      var key := keys[j];
      MarkerOfGroup(ms, key, groups[key]);
      var marker := Marker(key, PopupFor(key, groups[key]));
      ghost var placed := markers;
      markers := markers + [marker];
      assert forall i :: 0 <= i < j ==> markers[i] == placed[i];
    }
  }

  lemma MarkerOfGroup(ms: seq<ActiveMarketer>, key: string, group: seq<ActiveMarketer>)
    requires key in GroupKeys(ms) && group == GroupOf(ms, key)
    ensures |group| > 0 && IsMarkerFor(ms, key, Marker(key, PopupFor(key, group)))
  {
    GroupOfSpec(ms, key);
  }

  // ---------------------------------------------------------------------------
  // Time at location (startClientSideTimeUpdates)
  // ---------------------------------------------------------------------------

  datatype TickOutcome = Stopped | Updated(texts: seq<string>)

  /** One tick of the client-side timer over the `elapsedSeconds` of the stored active
      marketers: with no table or no marketers the timer stops and nothing changes; otherwise
      every count grows by exactly one and the tick computes, for each count, the
      `<h>h <m>m <s>s` text it would write into that row's time cell. Whether a row has such a
      cell is not modelled. */
  method ClientTimeTick(tableShown: bool, elapsed: array<nat>) returns (outcome: TickOutcome)
    modifies elapsed
    ensures !tableShown || elapsed.Length == 0 ==> outcome == Stopped && elapsed[..] == old(elapsed[..])
    ensures tableShown && elapsed.Length > 0 ==>
              outcome.Updated? && |outcome.texts| == elapsed.Length
              && forall i :: 0 <= i < elapsed.Length ==>
                   elapsed[i] == old(elapsed[i]) + 1 && outcome.texts[i] == DurationText(elapsed[i])
  {
    if !tableShown || elapsed.Length == 0 {
      return Stopped;
    }
    var texts: seq<string> := [];
    for i := 0 to elapsed.Length
      invariant |texts| == i
      invariant forall k :: 0 <= k < i ==> elapsed[k] == old(elapsed[k]) + 1 && texts[k] == DurationText(elapsed[k])
      invariant forall k :: i <= k < elapsed.Length ==> elapsed[k] == old(elapsed[k])
    {
      elapsed[i] := elapsed[i] + 1;
      texts := texts + [DurationText(elapsed[i])];
    }
    return Updated(texts);
  }
}
