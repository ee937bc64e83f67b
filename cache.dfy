/** The station dictionary of webapp/go/cache.go: two maps filled once from the
    station master and looked up by id or by name. */
module StationCache {
  import opened Model

  /** Station `k` is the last of `stations` with id `id`. */
  predicate LastIdAt(stations: seq<Station>, id: int, k: int)
  {
    0 <= k < |stations| && stations[k].id == id && forall j :: k < j < |stations| ==> stations[j].id != id
  }

  /** Station `k` is the last of `stations` named `name`. */
  predicate LastNameAt(stations: seq<Station>, name: string, k: int)
  {
    0 <= k < |stations| && stations[k].name == name && forall j :: k < j < |stations| ==> stations[j].name != name
  }

  /** What loading `stations` one by one into an empty map keyed by id leaves in it. */
  function IdIndex(stations: seq<Station>): map<int, Station>
  {
    if stations == [] then map[]
    else
      var n := |stations| - 1;
      IdIndex(stations[..n])[stations[n].id := stations[n]]
  }

  /** What loading `stations` one by one into an empty map keyed by name leaves in it. */
  function NameIndex(stations: seq<Station>): map<string, Station>
  {
    if stations == [] then map[]
    else
      var n := |stations| - 1;
      NameIndex(stations[..n])[stations[n].name := stations[n]]
  }

  /** The id map holds exactly the loaded ids. */
  lemma {:induction false} IdIndexKeys(stations: seq<Station>, id: int)
    ensures id in IdIndex(stations) <==> exists k :: 0 <= k < |stations| && stations[k].id == id
  {
    if stations != [] {
      var n := |stations| - 1;
      var prefix := stations[..n];
      IdIndexKeys(prefix, id);
      if exists k :: 0 <= k < |stations| && stations[k].id == id {
        var k :| 0 <= k < |stations| && stations[k].id == id;
        if k < n {
          assert prefix[k] == stations[k];
        }
      }
      if exists k :: 0 <= k < n && prefix[k].id == id {
        var k :| 0 <= k < n && prefix[k].id == id;
        assert stations[k] == prefix[k];
      }
    }
  }

  /** Each id in the id map is bound to the last station loaded with it. */
  lemma {:induction false} IdIndexLast(stations: seq<Station>, id: int)
    requires id in IdIndex(stations)
    ensures exists k :: LastIdAt(stations, id, k) && IdIndex(stations)[id] == stations[k]
  {
    var n := |stations| - 1;
    var prefix := stations[..n];
    if stations[n].id == id {
      assert LastIdAt(stations, id, n);
    } else {
      IdIndexLast(prefix, id);
      var k :| LastIdAt(prefix, id, k) && IdIndex(prefix)[id] == prefix[k];
      forall j | k < j < |stations|
        ensures stations[j].id != id
      {
        if j < n {
          assert prefix[j] == stations[j];
        }
      }
      assert prefix[k] == stations[k];
      assert LastIdAt(stations, id, k);
    }
  }

  /** The id map holds exactly the loaded ids, each bound to the last
      station loaded with it. */
  lemma {:induction false} IdIndexHoldsLast(stations: seq<Station>, id: int)
    ensures id in IdIndex(stations) <==> exists k :: 0 <= k < |stations| && stations[k].id == id
    ensures id in IdIndex(stations) ==> exists k :: LastIdAt(stations, id, k) && IdIndex(stations)[id] == stations[k]
  {
    IdIndexKeys(stations, id);
    if id in IdIndex(stations) {
      IdIndexLast(stations, id);
    }
  }

  /** The name map holds exactly the loaded names. */
  lemma {:induction false} NameIndexKeys(stations: seq<Station>, name: string)
    ensures name in NameIndex(stations) <==> exists k :: 0 <= k < |stations| && stations[k].name == name
  {
    if stations != [] {
      var n := |stations| - 1;
      var prefix := stations[..n];
      NameIndexKeys(prefix, name);
      if exists k :: 0 <= k < |stations| && stations[k].name == name {
        var k :| 0 <= k < |stations| && stations[k].name == name;
        if k < n {
          assert prefix[k] == stations[k];
        }
      }
      if exists k :: 0 <= k < n && prefix[k].name == name {
        var k :| 0 <= k < n && prefix[k].name == name;
        assert stations[k] == prefix[k];
      }
    }
  }

  /** Each name in the name map is bound to the last station loaded with it. */
  lemma {:induction false} NameIndexLast(stations: seq<Station>, name: string)
    requires name in NameIndex(stations)
    ensures exists k :: LastNameAt(stations, name, k) && NameIndex(stations)[name] == stations[k]
  {
    var n := |stations| - 1;
    var prefix := stations[..n];
    if stations[n].name == name {
      assert LastNameAt(stations, name, n);
    } else {
      NameIndexLast(prefix, name);
      var k :| LastNameAt(prefix, name, k) && NameIndex(prefix)[name] == prefix[k];
      forall j | k < j < |stations|
        ensures stations[j].name != name
      {
        if j < n {
          assert prefix[j] == stations[j];
        }
      }
      assert prefix[k] == stations[k];
      assert LastNameAt(stations, name, k);
    }
  }

  /** The name map holds exactly the loaded names, each bound to the last
      station loaded with it. */
  lemma {:induction false} NameIndexHoldsLast(stations: seq<Station>, name: string)
    ensures name in NameIndex(stations) <==> exists k :: 0 <= k < |stations| && stations[k].name == name
    ensures name in NameIndex(stations) ==> exists k :: LastNameAt(stations, name, k) && NameIndex(stations)[name] == stations[k]
  {
    NameIndexKeys(stations, name);
    if name in NameIndex(stations) {
      NameIndexLast(stations, name);
    }
  }

  /** Loading one more station into maps that already hold `base` overridden
      by the first `i` stations stores it over whatever its keys held. */
  lemma IndexSnoc(baseId: map<int, Station>, baseName: map<string, Station>, stations: seq<Station>, i: int)
    requires 0 <= i < |stations|
    ensures (baseId + IdIndex(stations[..i]))[stations[i].id := stations[i]] == baseId + IdIndex(stations[..i + 1])
    ensures (baseName + NameIndex(stations[..i]))[stations[i].name := stations[i]] == baseName + NameIndex(stations[..i + 1])
  {
    assert stations[..i + 1][..i] == stations[..i];
  }

  class StationMaster {
    var byId: map<int, Station>
    var byName: map<string, Station>

    /** The two maps start empty, as the package-level `make` does. */
    constructor ()
      ensures byId == map[] && byName == map[]
    {
      byId := map[];
      byName := map[];
    }

    /** initStationMasterDict: every loaded station is stored under its id and
        under its name, a later station overwriting an earlier one with the
        same key; keys not loaded keep what they held. */
    method Init(stations: seq<Station>)
      modifies this
      ensures byId == old(byId) + IdIndex(stations)
      ensures byName == old(byName) + NameIndex(stations)
    {
      for i := 0 to |stations|
        invariant byId == old(byId) + IdIndex(stations[..i])
        invariant byName == old(byName) + NameIndex(stations[..i])
      {
        var v := stations[i];
        IndexSnoc(old(byId), old(byName), stations, i);
        byId := byId[v.id := v];
        byName := byName[v.name := v];
      }
      assert stations[..|stations|] == stations;
    }

    /** FetchStationMasterByID: the stored station, or not-found. */
    function FetchByID(id: int): (r: Result<Station>)
      reads this
      ensures r.Ok? <==> id in byId
      ensures r.Ok? ==> r.value == byId[id]
      ensures r.Err? ==> r.error == StationNotFound
    {
      if id in byId then Ok(byId[id]) else Err(StationNotFound)
    }

    /** FetchStationMasterByName: the stored station, or not-found. */
    function FetchByName(name: string): (r: Result<Station>)
      reads this
      ensures r.Ok? <==> name in byName
      ensures r.Ok? ==> r.value == byName[name]
      ensures r.Err? ==> r.error == StationNotFound
    {
      if name in byName then Ok(byName[name]) else Err(StationNotFound)
    }
  }

  /** A dictionary loaded from `stations` into empty maps answers every lookup
      of a loaded id or name with the last station loaded under that key, and
      every other lookup with not-found. */
  method LoadStations(stations: seq<Station>) returns (cache: StationMaster)
    ensures fresh(cache)
    ensures forall id :: cache.FetchByID(id).Ok? <==> exists k :: 0 <= k < |stations| && stations[k].id == id
    ensures forall id :: cache.FetchByID(id).Ok? ==> exists k :: LastIdAt(stations, id, k) && cache.FetchByID(id).value == stations[k]
    ensures forall name :: cache.FetchByName(name).Ok? <==> exists k :: 0 <= k < |stations| && stations[k].name == name
    ensures forall name :: cache.FetchByName(name).Ok? ==> exists k :: LastNameAt(stations, name, k) && cache.FetchByName(name).value == stations[k]
  {
    cache := new StationMaster();
    cache.Init(stations);
    assert cache.byId == IdIndex(stations);
    assert cache.byName == NameIndex(stations);
    forall id
      ensures cache.FetchByID(id).Ok? <==> exists k :: 0 <= k < |stations| && stations[k].id == id
      ensures cache.FetchByID(id).Ok? ==> exists k :: LastIdAt(stations, id, k) && cache.FetchByID(id).value == stations[k]
    {
      IdIndexHoldsLast(stations, id);
    }
    forall name
      ensures cache.FetchByName(name).Ok? <==> exists k :: 0 <= k < |stations| && stations[k].name == name
      ensures cache.FetchByName(name).Ok? ==> exists k :: LastNameAt(stations, name, k) && cache.FetchByName(name).value == stations[k]
    {
      NameIndexHoldsLast(stations, name);
    }
  }
}
