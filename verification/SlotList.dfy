/** The cars and slots of a dedicated server: the entry list must agree with the server's own
    configuration. */
module SlotList {
  import opened PyText
  import opened Orchestrator
  import opened PySort

  /** One entry of entry_list.ini. */
  datatype Slot = Slot(index: nat, model: string, ai: bool)

  /** A rig has picked a car. */
  predicate Picked(rig: Rig) {
    rig.selectedCar != "" && rig.selectedCar != "None"
  }

  /** The cars the rigs of the group have picked and the disk has. */
  function PickedCars(rigIds: seq<string>, rigs: map<string, Rig>, onDisk: set<string>): set<string> {
    set r | r in rigIds && r in rigs && Picked(rigs[r]) && rigs[r].selectedCar in onDisk :: rigs[r].selectedCar
  }

  /** The car list of the server: the validated pool and the cars the rigs have picked, sorted. */
  method CollectCars(validated: seq<string>, rigIds: seq<string>, rigs: map<string, Rig>, onDisk: set<string>)
    returns (cars: seq<string>)
    ensures IsSorted(cars) && Elements(cars) == Elements(validated) + PickedCars(rigIds, rigs, onDisk)
  {
    var all := set c <- validated;
    for i := 0 to |rigIds|
      invariant all == Elements(validated) + PickedCars(rigIds[..i], rigs, onDisk)
    {
      assert rigIds[..i + 1] == rigIds[..i] + [rigIds[i]];
      if rigIds[i] in rigs {
        var rc := rigs[rigIds[i]].selectedCar;
        if rc != "" && rc != "None" && rc in onDisk {
          all := all + {rc};
        }
      }
    }
    assert rigIds[..|rigIds|] == rigIds;
    cars := Sort(all);
  }

  function Max(a: int, b: int): int {
    if a >= b then a else b
  }

  /** The car of a rig's own slot: its pick if that is in the list, any car of the list for a rig
      without one, and the first for a rig the orchestrator does not know. */
  predicate FitsRig(model: string, rid: string, rigs: map<string, Rig>, cars: seq<string>)
    requires cars != []
  {
    if rid !in rigs then model == cars[0]
    else if Picked(rigs[rid]) && rigs[rid].selectedCar in cars then model == rigs[rid].selectedCar
    else model in cars
  }

  method WriteEntryList(rigIds: seq<string>, rigs: map<string, Rig>, cars: seq<string>, aiCount: int, totalSlots: int)
    returns (entries: seq<Slot>)
    requires cars != []
    ensures |entries| == Max(|rigIds| + Max(aiCount, 0), totalSlots)
    ensures forall i | 0 <= i < |entries| :: entries[i].index == i && entries[i].model in cars
    ensures forall i | 0 <= i < |rigIds| :: !entries[i].ai && FitsRig(entries[i].model, rigIds[i], rigs, cars)
    ensures forall i | |rigIds| <= i < |rigIds| + aiCount ::
              entries[i].ai && entries[i].model == cars[(i - |rigIds|) % |cars|]
    ensures forall i | |rigIds| + Max(aiCount, 0) <= i < |entries| ::
              !entries[i].ai && entries[i].model == cars[i % |cars|]
  {
    var placeholderSlots := Max(|rigIds| + aiCount, totalSlots);
    var humans := RigSlots(rigIds, rigs, cars);
    var manned := AiSlots(humans, cars, aiCount);
    entries := PlaceholderSlots(manned, cars, placeholderSlots);
    assert forall j | 0 <= j < |manned| :: entries[j] == manned[j];
    assert forall j | 0 <= j < |humans| :: manned[j] == humans[j];
  }

  method RigSlots(rigIds: seq<string>, rigs: map<string, Rig>, cars: seq<string>) returns (entries: seq<Slot>)
    requires cars != []
    ensures |entries| == |rigIds|
    ensures forall j | 0 <= j < |entries| :: entries[j].index == j && !entries[j].ai && entries[j].model in cars
    ensures forall j | 0 <= j < |entries| :: FitsRig(entries[j].model, rigIds[j], rigs, cars)
  {
    entries := [];
    for i := 0 to |rigIds|
      invariant i == |entries|
      invariant forall j | 0 <= j < i :: entries[j].index == j && !entries[j].ai && entries[j].model in cars
      invariant forall j | 0 <= j < i :: FitsRig(entries[j].model, rigIds[j], rigs, cars)
    {
      var rigCar := cars[0];
      if rigIds[i] in rigs {
        var rc := rigs[rigIds[i]].selectedCar;
        if rc != "" && rc != "None" && rc in cars {
          rigCar := rc;
        } else {
          assert cars[0] in cars;
          rigCar :| rigCar in cars;
        }
      }
      entries := entries + [Slot(i, rigCar, false)];
    }
  }

  method AiSlots(before: seq<Slot>, cars: seq<string>, aiCount: int) returns (entries: seq<Slot>)
    requires cars != []
    ensures |entries| == |before| + Max(aiCount, 0) && entries[..|before|] == before
    ensures forall j | |before| <= j < |entries| :: entries[j] == Slot(j, cars[(j - |before|) % |cars|], true)
  {
    entries := before;
    var aiIdx := 0;
    while aiIdx < aiCount
      invariant 0 <= aiIdx <= Max(aiCount, 0) && |entries| == |before| + aiIdx && entries[..|before|] == before
      invariant forall j | |before| <= j < |entries| :: entries[j] == Slot(j, cars[(j - |before|) % |cars|], true)
    {
      entries := entries + [Slot(|entries|, cars[aiIdx % |cars|], true)];
      aiIdx := aiIdx + 1;
    }
  }

  method PlaceholderSlots(before: seq<Slot>, cars: seq<string>, slots: int) returns (entries: seq<Slot>)
    requires cars != []
    ensures |entries| == Max(|before|, slots) && entries[..|before|] == before
    ensures forall j | |before| <= j < |entries| :: entries[j] == Slot(j, cars[j % |cars|], false)
  {
    entries := before;
    var idx := |before|;
    while idx < slots
      invariant idx == |entries| && |before| <= idx <= Max(|before|, slots) && entries[..|before|] == before
      invariant forall j | |before| <= j < |entries| :: entries[j] == Slot(j, cars[j % |cars|], false)
    {
      entries := entries + [Slot(idx, cars[idx % |cars|], false)];
      idx := idx + 1;
    }
  }

  /** Car list, slot count and entry list as `start_server` puts them together, from a pool that
      has at least one valid car. The number of entries is the number of clients the configuration
      allows exactly when the AI count is not negative or the rigs fit without it; every model is
      in the configuration's car list; each known rig whose pick is on disk has that very car in
      its own slot; and the AI entries share the cars out evenly. */
  method WriteConfigs(
    validated: seq<string>, rigIds: seq<string>, rigs: map<string, Rig>, onDisk: set<string>, aiCount: int)
    returns (maxClients: int, cars: seq<string>, entries: seq<Slot>)
    requires validated != []
    ensures maxClients == Max(|rigIds| + aiCount, 10)
    ensures |entries| == Max(|rigIds| + Max(aiCount, 0), maxClients)
    ensures |entries| == maxClients <==> aiCount >= 0 || |rigIds| <= 10
    ensures forall i | 0 <= i < |entries| :: entries[i].index == i && entries[i].model in cars
    ensures forall i | 0 <= i < |rigIds| ::
              && i < |entries| && !entries[i].ai
              && (rigIds[i] in rigs && Picked(rigs[rigIds[i]]) && rigs[rigIds[i]].selectedCar in onDisk ==>
                    entries[i].model == rigs[rigIds[i]].selectedCar)
    ensures forall i | |rigIds| <= i < |rigIds| + aiCount ::
              i < |entries| && entries[i].ai && cars != [] && entries[i].model == cars[(i - |rigIds|) % |cars|]
    ensures IsSorted(cars)
    ensures forall c :: c in cars <==>
              || c in validated
              || (c !in {"", "None"} && c in onDisk && exists r <- rigIds :: r in rigs && rigs[r].selectedCar == c)
    ensures forall c, d | c in cars && d in cars ::
              multiset(AiModels(entries))[c] <= multiset(AiModels(entries))[d] + 1
  {
    cars := CollectCars(validated, rigIds, rigs, onDisk);
    assert validated[0] in Elements(cars);
    CarsAre(cars, validated, rigIds, rigs, onDisk);
    maxClients := Max(|rigIds| + aiCount, 10);
    entries := WriteEntryList(rigIds, rigs, cars, aiCount, maxClients);
    forall i | 0 <= i < |rigIds| && rigIds[i] in rigs && Picked(rigs[rigIds[i]])
               && rigs[rigIds[i]].selectedCar in onDisk
      ensures entries[i].model == rigs[rigIds[i]].selectedCar
    {
      assert rigs[rigIds[i]].selectedCar in PickedCars(rigIds, rigs, onDisk);
      assert rigs[rigIds[i]].selectedCar in Elements(cars);
    }
    forall c, d | c in cars && d in cars
      ensures multiset(AiModels(entries))[c] <= multiset(AiModels(entries))[d] + 1
    {
      AiCarsAreShared(entries, |rigIds|, Max(aiCount, 0), cars, c, d);
    }
  }

  lemma CarsAre(
    cars: seq<string>, validated: seq<string>, rigIds: seq<string>, rigs: map<string, Rig>, onDisk: set<string>)
    requires Elements(cars) == Elements(validated) + PickedCars(rigIds, rigs, onDisk)
    ensures forall c :: c in cars <==>
              || c in validated
              || (c !in {"", "None"} && c in onDisk && exists r <- rigIds :: r in rigs && rigs[r].selectedCar == c)
  {
    assert forall c :: c in cars <==> c in Elements(cars);
    assert forall c :: c in validated <==> c in Elements(validated);
  }

  lemma AiCarsAreShared(entries: seq<Slot>, rigs: nat, n: nat, cars: seq<string>, c: string, d: string)
    requires IsSorted(cars) && c in cars && d in cars && rigs + n <= |entries|
    requires forall i | 0 <= i < |entries| :: entries[i].ai <==> rigs <= i < rigs + n
    requires forall i | rigs <= i < rigs + n :: entries[i].model == cars[(i - rigs) % |cars|]
    ensures multiset(AiModels(entries))[c] <= multiset(AiModels(entries))[d] + 1
  {
    var dealt := Dealt(cars, n);
    assert forall i | 0 <= i < n :: entries[rigs + i].model == dealt[i];
    AiModelsAre(entries, rigs, dealt);
    SortedCount(cars, c);
    SortedCount(cars, d);
    RoundRobinIsFair(cars, n, c, d);
  }

  /** With eleven rigs and an AI count of -1, which the request model lets through, there are more
      entries than the configuration allows clients. */
  method NegativeCountOverfills(
    validated: seq<string>, rigIds: seq<string>, rigs: map<string, Rig>, onDisk: set<string>)
    returns (maxClients: int, entries: seq<Slot>)
    requires validated != [] && |rigIds| == 11
    ensures maxClients == 10 && |entries| == 11
  {
    var cars;
    maxClients, cars, entries := WriteConfigs(validated, rigIds, rigs, onDisk, -1);
  }

  // ------------------------------------------------------------------
  // The launcher's own opponents
  // ------------------------------------------------------------------

  /** The cars of the pool that are installed, in order. */
  function Installed(pool: seq<string>, local: set<string>): seq<string> {
    if pool == [] then []
    else
      var last := |pool| - 1;
      Installed(pool[..last], local) + if pool[last] in local then [pool[last]] else []
  }

  /** `local` is the set of cars in the rig's car folder, if there is such a folder. */
  method ChoosePool(car: string, carPool: seq<string>, local: Option<set<string>>) returns (pool: seq<string>)
    ensures pool != []
    ensures forall c <- pool :: c == car || c in carPool
    ensures local == None ==> car in pool && forall c <- carPool :: c in pool
    ensures local == None && car in carPool ==> pool == carPool
    ensures local.Some? && (exists c <- carPool :: c in local.value) ==> pool == Installed(carPool, local.value)
    ensures local.Some? && (forall c <- carPool :: c !in local.value) ==> pool == [car]
  {
    pool := if carPool == [] then [car] else carPool;
    if local.Some? {
      var valid: seq<string> := [];
      for i := 0 to |pool|
        invariant valid == Installed(pool[..i], local.value)
      {
        assert pool[..i + 1][..i] == pool[..i];
        if pool[i] in local.value {
          valid := valid + [pool[i]];
        }
      }
      assert pool[..|pool|] == pool;
      InstalledMembers(pool, local.value);
      assert valid != [] ==> valid[0] in valid;
      assert carPool == [] ==> pool[..0] == [];
      pool := if valid == [] then [car] else valid;
    } else if car !in pool {
      pool := [car] + pool;
    }
  }

  lemma {:induction false} InstalledMembers(pool: seq<string>, local: set<string>)
    ensures forall c :: c in Installed(pool, local) <==> c in pool && c in local
  {
    if pool != [] {
      InstalledMembers(pool[..|pool| - 1], local);
      assert pool == pool[..|pool| - 1] + [pool[|pool| - 1]];
    }
  }

  /** The number of cars the race file announces, and the models of the opponents it lists. They
      agree unless an offline race is asked for with a negative AI count. */
  method ChooseOpponents(
    car: string, carPool: seq<string>, local: Option<set<string>>, useServer: bool, aiCount: int)
    returns (totalCars: int, pool: seq<string>, models: seq<string>)
    ensures pool != [] && models == Dealt(pool, if useServer then 0 else Max(aiCount, 0))
    ensures forall c <- models :: c == car || c in carPool
    ensures totalCars == 1 + |models| <==> useServer || aiCount >= 0
  {
    pool := ChoosePool(car, carPool, local);
    var clientAiCount := if useServer then 0 else aiCount;
    totalCars := if useServer then 1 else 1 + aiCount;
    models := [];
    var i := 0;
    while i < clientAiCount
      invariant 0 <= i <= Max(clientAiCount, 0) && models == Dealt(pool, i)
    {
      models := models + [if pool != [] then pool[i % |pool|] else car];
      i := i + 1;
    }
  }

  // ------------------------------------------------------------------
  // Round robin
  // ------------------------------------------------------------------

  /** `n` cars dealt from the pool in turn. */
  function Dealt(pool: seq<string>, n: nat): (dealt: seq<string>)
    requires pool != []
    ensures forall c <- dealt :: c in pool
  {
    seq(n, i requires 0 <= i < n => pool[i % |pool|])
  }

  lemma NextPosition(n: nat, p: nat)
    requires p > 0
    ensures if n % p == p - 1 then (n + 1) % p == 0 && (n + 1) / p == n / p + 1
            else (n + 1) % p == n % p + 1 && (n + 1) / p == n / p
  {
    var q, r := n / p, n % p;
    assert n == p * q + r;
    Multiples(p, q + 1, q + 1);
    if r == p - 1 {
      QuotientIsUnique(n + 1, p, q + 1, 0);
    } else {
      QuotientIsUnique(n + 1, p, q, r + 1);
    }
  }

  lemma QuotientIsUnique(n: nat, p: nat, q: nat, r: nat)
    requires p > 0 && r < p && n == p * q + r
    ensures n / p == q && n % p == r
  {
    var q', r' := n / p, n % p;
    assert n == p * q' + r';
    if q' < q {
      Multiples(p, q' + 1, q);
    } else if q < q' {
      Multiples(p, q + 1, q');
    }
  }

  lemma Multiples(p: nat, a: int, b: int)
    requires a <= b
    ensures p * a <= p * b && p * (a - 1) == p * a - p
  {
    assert p * b == p * a + p * (b - a);
    assert p * (b - a) >= 0;
  }

  lemma PrefixStep(pool: seq<string>, r: nat, c: string)
    requires r < |pool|
    ensures multiset(pool[..r])[c] + (if pool[r] == c then 1 else 0) ==
            if r + 1 == |pool| then multiset(pool)[c] else multiset(pool[..r + 1])[c]
    ensures multiset(pool[..0])[c] == 0
  {
    assert pool[..r + 1] == pool[..r] + [pool[r]];
    assert r + 1 == |pool| ==> pool[..r + 1] == pool;
  }

  /** Dealing `n` cars goes through the pool `n / |pool|` times and then through its first
      `n % |pool|` positions once more. */
  lemma {:induction false} DealtTimes(pool: seq<string>, n: nat, c: string)
    requires pool != []
    ensures multiset(Dealt(pool, n))[c] == multiset(pool)[c] * (n / |pool|) + multiset(pool[..n % |pool|])[c]
  {
    var p := |pool|;
    if n == 0 {
      QuotientIsUnique(0, p, 0, 0);
    } else {
      var m := n - 1;
      var q, r := m / p, m % p;
      DealtTimes(pool, m, c);
      NextPosition(m, p);
      assert Dealt(pool, n) == Dealt(pool, m) + [pool[r]];
      Multiples(multiset(pool)[c], q + 1, q + 1);
      PrefixStep(pool, r, c);
    }
  }

  lemma PrefixCount(pool: seq<string>, r: nat, c: string)
    requires r <= |pool|
    ensures multiset(pool[..r])[c] <= multiset(pool)[c]
  {
    assert pool == pool[..r] + pool[r..];
  }

  /** Cars that occur equally often in the pool are dealt equally often, up to one round of the
      pool: for cars that occur once, up to one. */
  lemma RoundRobinIsFair(pool: seq<string>, n: nat, c: string, d: string)
    requires pool != [] && multiset(pool)[c] == multiset(pool)[d]
    ensures var each, dealt := multiset(pool)[c], multiset(Dealt(pool, n));
            && each * (n / |pool|) <= dealt[c] <= each * (n / |pool|) + each
            && dealt[c] <= dealt[d] + each && dealt[d] <= dealt[c] + each
  {
    DealtTimes(pool, n, c);
    DealtTimes(pool, n, d);
    PrefixCount(pool, n % |pool|, c);
    PrefixCount(pool, n % |pool|, d);
  }

  lemma {:induction false} CountOnce(xs: seq<string>, c: string)
    requires NoRepeats(xs) && c in xs
    ensures multiset(xs)[c] == 1
  {
    var last := |xs| - 1;
    var init := xs[..last];
    assert xs == init + [xs[last]];
    if c == xs[last] {
      assert c !in init;
      assert multiset(init)[c] == 0;
    } else {
      CountOnce(init, c);
    }
  }

  lemma SortedCount(xs: seq<string>, c: string)
    requires IsSorted(xs) && c in xs
    ensures multiset(xs)[c] == 1
  {
    hide Leq;
    CountOnce(xs, c);
  }

  /** The models of the AI entries, in order. */
  function AiModels(entries: seq<Slot>): seq<string> {
    if entries == [] then []
    else
      var last := |entries| - 1;
      AiModels(entries[..last]) + if entries[last].ai then [entries[last].model] else []
  }

  /** Entries laid out as humans, AI cars with these models, and placeholders. */
  lemma AiModelsAre(entries: seq<Slot>, rigs: nat, models: seq<string>)
    requires rigs + |models| <= |entries|
    requires forall i | 0 <= i < |entries| :: entries[i].ai <==> rigs <= i < rigs + |models|
    requires forall i | 0 <= i < |models| :: entries[rigs + i].model == models[i]
    ensures AiModels(entries) == models
  {
    AiModelsOfPrefix(entries, rigs, models, |entries|);
    assert entries[..|entries|] == entries && models[..|models|] == models;
  }

  lemma {:induction false} AiModelsOfPrefix(entries: seq<Slot>, rigs: nat, models: seq<string>, i: nat)
    requires i <= |entries| && rigs + |models| <= |entries|
    requires forall i | 0 <= i < |entries| :: entries[i].ai <==> rigs <= i < rigs + |models|
    requires forall i | 0 <= i < |models| :: entries[rigs + i].model == models[i]
    ensures AiModels(entries[..i]) ==
            models[..if i <= rigs then 0 else if i <= rigs + |models| then i - rigs else |models|]
  {
    if i > 0 {
      AiModelsOfPrefix(entries, rigs, models, i - 1);
      assert entries[..i][..i - 1] == entries[..i - 1];
      if entries[i - 1].ai {
        var k := i - 1 - rigs;
        assert entries[rigs + k].model == models[k];
        assert models[..k + 1] == models[..k] + [models[k]];
      }
    }
  }
}
