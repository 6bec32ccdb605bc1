/** The registry of salons (`src/managers/SalonManager.ts`): creation under a
    fresh id, lookups, delegation to a salon, removal, and the cross-salon
    listings of employees and services. */
module SalonManagers {
  import opened Wrappers
  import opened Seqs
  import opened Text
  import opened Services
  import opened Employees
  import opened Salons

  /** `salon.name.toLowerCase() === name.toLowerCase()`. */
  predicate NamedAs(salon: Salon, name: string)
    reads salon
  {
    ToLower(salon.name) == ToLower(name)
  }

  /** The first salon of `ss` named `name` ignoring case, as `find` returns it. */
  function FirstNamed(ss: seq<Salon>, name: string): (r: Option<Salon>)
    reads ss
    ensures r.None? <==> forall i :: 0 <= i < |ss| ==> !NamedAs(ss[i], name)
    ensures r.Some? ==> exists k :: 0 <= k < |ss| && ss[k] == r.value && NamedAs(r.value, name) &&
                                    forall j :: 0 <= j < k ==> !NamedAs(ss[j], name)
  {
    if ss == [] then None
    else if NamedAs(ss[0], name) then Some(ss[0])
    else
      var r := FirstNamed(ss[1..], name);
      assert forall j :: 1 <= j < |ss| ==> ss[j] == ss[1..][j - 1];
      r
  }

  /** The salons of `ss` offering a service called `serviceName`, in their order. */
  function Offering(ss: seq<Salon>, serviceName: string): (r: seq<Salon>)
    reads ss
    ensures forall s :: s in r ==> s in ss && s.OffersService(serviceName)
    ensures forall s :: s in ss && s.OffersService(serviceName) ==> s in r
    ensures IsSubsequence(r, ss)
  {
    if ss == [] then []
    else
      var init := Offering(ss[..|ss| - 1], serviceName);
      var s := ss[|ss| - 1];
      if s.OffersService(serviceName) then
        assert (init + [s])[..|init|] == init;
        init + [s]
      else init
  }

  /** The employees of the salons `ss`, salon after salon. */
  function StaffOf(ss: seq<Salon>): (r: seq<Employee>)
    reads ss
    ensures forall e :: e in r ==> exists i :: 0 <= i < |ss| && e in ss[i].employees
    ensures forall i, e :: 0 <= i < |ss| && e in ss[i].employees ==> e in r
  {
    if ss == [] then []
    else
      var init := StaffOf(ss[..|ss| - 1]);
      assert forall i :: 0 <= i < |ss| - 1 ==> ss[..|ss| - 1][i] == ss[i];
      init + ss[|ss| - 1].employees
  }

  /** The services of the salons `ss`, salon after salon. */
  function MenuOf(ss: seq<Salon>): (r: seq<Service>)
    reads ss
    ensures forall x :: x in r ==> exists i :: 0 <= i < |ss| && x in ss[i].services
    ensures forall i, x :: 0 <= i < |ss| && x in ss[i].services ==> x in r
  {
    if ss == [] then []
    else
      var init := MenuOf(ss[..|ss| - 1]);
      assert forall i :: 0 <= i < |ss| - 1 ==> ss[..|ss| - 1][i] == ss[i];
      init + ss[|ss| - 1].services
  }

  /** Every listed employee counts once per salon that lists them: duplicates are kept. */
  lemma {:induction false} StaffOfLength(ss: seq<Salon>)
    ensures |StaffOf(ss)| == StaffCount(ss)
  {
    if ss != [] {
      StaffOfLength(ss[..|ss| - 1]);
    }
  }

  /** The sum of the salons' employee counts. */
  function StaffCount(ss: seq<Salon>): (n: nat)
    reads ss
  {
    if ss == [] then 0 else StaffCount(ss[..|ss| - 1]) + |ss[|ss| - 1].employees|
  }

  lemma StaffOfStep(ss: seq<Salon>, i: int)
    requires 0 <= i < |ss|
    ensures StaffOf(ss[..i + 1]) == StaffOf(ss[..i]) + ss[i].employees
  {
    assert ss[..i + 1][..i] == ss[..i];
  }

  lemma MenuOfStep(ss: seq<Salon>, i: int)
    requires 0 <= i < |ss|
    ensures MenuOf(ss[..i + 1]) == MenuOf(ss[..i]) + ss[i].services
  {
    assert ss[..i + 1][..i] == ss[..i];
  }

  /** A JavaScript `Map<string, Service>` keyed by service name: its keys in
      insertion order and the value under each. */
  datatype NameIndex = NameIndex(keys: seq<string>, byName: map<string, Service>)

  const EmptyIndex := NameIndex([], map[])

  /** `map.set(service.name, service)`: a known key keeps its position and takes
      the new value, a new key goes last. */
  function Put(ix: NameIndex, s: Service): (r: NameIndex)
    ensures r.byName == ix.byName[s.name := s]
    ensures s.name in ix.byName ==> r.keys == ix.keys
    ensures s.name !in ix.byName ==> r.keys == ix.keys + [s.name]
  {
    NameIndex(if s.name in ix.byName then ix.keys else ix.keys + [s.name], ix.byName[s.name := s])
  }

  /** The index after setting each service of `ss` in turn. */
  function PutAll(ix: NameIndex, ss: seq<Service>): (r: NameIndex)
  {
    if ss == [] then ix else Put(PutAll(ix, ss[..|ss| - 1]), ss[|ss| - 1])
  }

  lemma PutAllStep(ix: NameIndex, ss: seq<Service>, s: Service)
    ensures PutAll(ix, ss + [s]) == Put(PutAll(ix, ss), s)
  {
    assert (ss + [s])[..|ss|] == ss;
  }

  /** The position of the first service of `flat` called `name`, or -1. */
  function FirstIndexOf(flat: seq<Service>, name: string): (r: int)
    ensures -1 <= r < |flat|
    ensures r >= 0 ==> flat[r].name == name
  {
    if flat == [] then -1
    else
      var f := FirstIndexOf(flat[..|flat| - 1], name);
      if f >= 0 then f else if flat[|flat| - 1].name == name then |flat| - 1 else -1
  }

  /** The position of the last service of `flat` called `name`, or -1. */
  function LastIndexOf(flat: seq<Service>, name: string): (r: int)
    ensures -1 <= r < |flat|
    ensures r >= 0 ==> flat[r].name == name
  {
    if flat == [] then -1
    else if flat[|flat| - 1].name == name then |flat| - 1
    else LastIndexOf(flat[..|flat| - 1], name)
  }

  /** `FirstIndexOf` finds the first occurrence, and -1 means there is none. */
  lemma {:induction false} FirstIndexOfIsFirst(flat: seq<Service>, name: string)
    ensures var r := FirstIndexOf(flat, name);
            && (r == -1 <==> forall q :: 0 <= q < |flat| ==> flat[q].name != name)
            && (r >= 0 ==> forall q :: 0 <= q < r ==> flat[q].name != name)
  {
    if flat != [] {
      var init := flat[..|flat| - 1];
      FirstIndexOfIsFirst(init, name);
      assert forall q :: 0 <= q < |init| ==> flat[q] == init[q];
    }
  }

  /** `LastIndexOf` finds the last occurrence, and -1 means there is none. */
  lemma {:induction false} LastIndexOfIsLast(flat: seq<Service>, name: string)
    ensures var r := LastIndexOf(flat, name);
            && (r == -1 <==> forall q :: 0 <= q < |flat| ==> flat[q].name != name)
            && (r >= 0 ==> forall q :: r < q < |flat| ==> flat[q].name != name)
  {
    if flat != [] {
      var init := flat[..|flat| - 1];
      LastIndexOfIsLast(init, name);
      assert forall q :: 0 <= q < |init| ==> flat[q] == init[q];
    }
  }

  /** The keys of the index are exactly the names occurring in `flat`. */
  ghost predicate KeysAreNames(ix: NameIndex, flat: seq<Service>) {
    forall k :: k in ix.byName <==> FirstIndexOf(flat, k) >= 0
  }

  /** Each name is stored with the last service of `flat` carrying it. */
  ghost predicate ValuesAreLast(ix: NameIndex, flat: seq<Service>) {
    forall k :: k in ix.byName ==> var l := LastIndexOf(flat, k); 0 <= l && ix.byName[k] == flat[l]
  }

  /** The keys are in the order their names first occur in `flat`. */
  ghost predicate KeysInFirstOrder(ix: NameIndex, flat: seq<Service>) {
    forall i, j :: 0 <= i < j < |ix.keys| ==> FirstIndexOf(flat, ix.keys[i]) < FirstIndexOf(flat, ix.keys[j])
  }

  /** What the index holds after the services `flat` were set into an empty one:
      one key per name of `flat`, in the order the names first appear, each
      under the last service of that name. */
  ghost predicate Summarizes(ix: NameIndex, flat: seq<Service>) {
    ListsKeys(ix.keys, ix.byName) && KeysAreNames(ix, flat) && ValuesAreLast(ix, flat) && KeysInFirstOrder(ix, flat)
  }

  /* The step lemmas take the longer sequence `flat`: its last service is set
     into `ix`, the index of the services before it. */

  lemma PutKeepsKeysAreNames(ix: NameIndex, flat: seq<Service>)
    requires |flat| > 0 && KeysAreNames(ix, flat[..|flat| - 1])
    ensures KeysAreNames(Put(ix, flat[|flat| - 1]), flat)
  {
    var init, s := flat[..|flat| - 1], flat[|flat| - 1];
    forall k ensures k in Put(ix, s).byName <==> FirstIndexOf(flat, k) >= 0 {
      assert FirstIndexOf(flat, k) >= 0 <==> FirstIndexOf(init, k) >= 0 || k == s.name;
    }
  }

  lemma PutKeepsValuesAreLast(ix: NameIndex, flat: seq<Service>)
    requires |flat| > 0 && ValuesAreLast(ix, flat[..|flat| - 1])
    ensures ValuesAreLast(Put(ix, flat[|flat| - 1]), flat)
  {
    var init, s := flat[..|flat| - 1], flat[|flat| - 1];
    var m := Put(ix, s).byName;
    forall k | k in m ensures var l := LastIndexOf(flat, k); 0 <= l && m[k] == flat[l] {
      if k != s.name {
        assert LastIndexOf(flat, k) == LastIndexOf(init, k);
      }
    }
  }

  lemma PutKeepsKeysInFirstOrder(ix: NameIndex, flat: seq<Service>)
    requires |flat| > 0 && ListsKeys(ix.keys, ix.byName)
    requires KeysAreNames(ix, flat[..|flat| - 1]) && KeysInFirstOrder(ix, flat[..|flat| - 1])
    ensures KeysInFirstOrder(Put(ix, flat[|flat| - 1]), flat)
  {
    var init, s := flat[..|flat| - 1], flat[|flat| - 1];
    var keys := Put(ix, s).keys;
    forall i, j | 0 <= i < j < |keys| ensures FirstIndexOf(flat, keys[i]) < FirstIndexOf(flat, keys[j]) {
      assert keys[i] == ix.keys[i] && ix.keys[i] in ix.byName;
      assert FirstIndexOf(flat, ix.keys[i]) == FirstIndexOf(init, ix.keys[i]);
      if j < |ix.keys| {
        assert keys[j] == ix.keys[j] && ix.keys[j] in ix.byName;
        assert FirstIndexOf(flat, ix.keys[j]) == FirstIndexOf(init, ix.keys[j]);
      }
    }
  }

  /** Setting the last service of `flat` into the index of the services before
      it gives the index of `flat`. */
  lemma PutSummarizes(ix: NameIndex, flat: seq<Service>)
    requires |flat| > 0 && Summarizes(ix, flat[..|flat| - 1])
    ensures Summarizes(Put(ix, flat[|flat| - 1]), flat)
  {
    var s := flat[|flat| - 1];
    if s.name !in ix.byName {
      InsertKeepsListsKeys(ix.keys, ix.byName, s.name, s);
    }
    PutKeepsKeysAreNames(ix, flat);
    PutKeepsValuesAreLast(ix, flat);
    PutKeepsKeysInFirstOrder(ix, flat);
  }

  lemma {:induction false} PutAllSummarizes(flat: seq<Service>)
    ensures Summarizes(PutAll(EmptyIndex, flat), flat)
  {
    if flat != [] {
      PutAllSummarizes(flat[..|flat| - 1]);
      PutSummarizes(PutAll(EmptyIndex, flat[..|flat| - 1]), flat);
    }
  }

  /** `Array.from(servicesMap.values())` for the index built from `flat`. */
  function Merged(flat: seq<Service>): (r: seq<Service>)
  {
    var ix := PutAll(EmptyIndex, flat);
    PutAllSummarizes(flat);
    ValuesAt(ix.keys, ix.byName)
  }

  /** Entry `i` of the merge is the value stored under the `i`-th key. */
  lemma MergedEntries(flat: seq<Service>)
    ensures var ix := PutAll(EmptyIndex, flat);
            Summarizes(ix, flat) && |Merged(flat)| == |ix.keys| &&
            forall i :: 0 <= i < |ix.keys| ==> Merged(flat)[i] == ix.byName[ix.keys[i]]
  {
    PutAllSummarizes(flat);
  }

  /** No two services of the merge share a name. */
  lemma MergedNamesUnique(flat: seq<Service>)
    ensures UniqueBy(Merged(flat), NameOf)
  {
    MergedEntries(flat);
    var ix, r := PutAll(EmptyIndex, flat), Merged(flat);
    forall i | 0 <= i < |r| ensures r[i].name == ix.keys[i] {
      assert ix.keys[i] in ix.byName;
    }
  }

  /** Every name of `flat` is the name of some service of the merge. */
  lemma MergedCoversNames(flat: seq<Service>)
    ensures forall q :: 0 <= q < |flat| ==> exists i :: 0 <= i < |Merged(flat)| && Merged(flat)[i].name == flat[q].name
  {
    MergedEntries(flat);
    var ix, r := PutAll(EmptyIndex, flat), Merged(flat);
    forall q | 0 <= q < |flat| ensures exists i :: 0 <= i < |r| && r[i].name == flat[q].name {
      var k := flat[q].name;
      FirstIndexOfIsFirst(flat, k);
      var i :| 0 <= i < |ix.keys| && ix.keys[i] == k;
      assert r[i].name == k;
    }
  }

  /** Each service of the merge is the last of its name in `flat`. */
  lemma MergedKeepsLast(flat: seq<Service>)
    ensures forall i :: 0 <= i < |Merged(flat)| ==>
              var l := LastIndexOf(flat, Merged(flat)[i].name);
              0 <= l && Merged(flat)[i] == flat[l]
  {
    MergedEntries(flat);
    var ix, r := PutAll(EmptyIndex, flat), Merged(flat);
    forall i | 0 <= i < |r| ensures var l := LastIndexOf(flat, r[i].name); 0 <= l && r[i] == flat[l] {
      assert ix.keys[i] in ix.byName;
    }
  }

  /** The merge lists the names in the order they first appear in `flat`. */
  lemma MergedFirstOccurrenceOrder(flat: seq<Service>)
    ensures forall i, j :: 0 <= i < j < |Merged(flat)| ==>
              FirstIndexOf(flat, Merged(flat)[i].name) < FirstIndexOf(flat, Merged(flat)[j].name)
  {
    MergedEntries(flat);
    var ix, r := PutAll(EmptyIndex, flat), Merged(flat);
    forall i | 0 <= i < |r| ensures r[i].name == ix.keys[i] {
      assert ix.keys[i] in ix.byName;
    }
  }

  class SalonManager {
    var salons: map<string, Salon>
    /** The keys of `salons` in insertion order, the iteration order of a JavaScript `Map`. */
    var ids: seq<string>

    /** Every key is listed once, and each salon is stored under its own id. */
    ghost predicate Keyed()
      reads this
    {
      ListsKeys(ids, salons) && forall k :: k in salons ==> salons[k].id == k
    }

    /** The keys are in order and every stored salon keeps its own invariant. */
    ghost predicate Valid()
      reads this, salons.Values
    {
      Keyed() && forall k :: k in salons ==> salons[k].Valid()
    }

    constructor()
      ensures Valid() && salons == map[] && ids == []
    {
      salons := map[];
      ids := [];
    }

    /** `createSalon(name, workingHours)`: the id comes from the id generator,
        here the parameter `freshId`. */
    method CreateSalon(name: string, workingHours: WorkingHours, freshId: string) returns (salon: Salon)
      requires Valid() && freshId !in salons
      modifies this
      ensures Valid()
      ensures fresh(salon) && salon.id == freshId && salon.name == name && salon.workingHours == workingHours
      ensures salon.services == [] && salon.employees == []
      ensures salons == old(salons)[freshId := salon] && ids == old(ids) + [freshId]
      ensures |salons| == old(|salons|) + 1
    {
      salon := new Salon(freshId, name, workingHours);
      InsertKeepsListsKeys(ids, salons, freshId, salon);
      salons := salons[freshId := salon];
      ids := ids + [freshId];
    }

    /** `getAllSalons()`: the stored salons in insertion order. */
    function GetAllSalons(): (r: seq<Salon>)
      reads this
      requires Keyed()
      ensures |r| == |ids| && forall i :: 0 <= i < |ids| ==> r[i] == salons[ids[i]]
      ensures forall s :: s in r ==> s in salons.Values
      ensures forall s :: s in salons.Values ==> s in r
    {
      ValuesAtListsValues(ids, salons);
      ValuesAt(ids, salons)
    }

    /** `getSalonById(id)`. */
    function GetSalonById(id: string): (r: Option<Salon>)
      reads this
      requires Keyed()
      ensures r.Some? <==> id in ids
      ensures r.Some? ==> r.value in GetAllSalons() && r.value.id == id
    {
      if id in salons then Some(salons[id]) else None
    }

    /** `getSalonByName(name)`: the first salon, in insertion order, whose name
        matches ignoring case. */
    function GetSalonByName(name: string): (r: Option<Salon>)
      reads this, salons.Values
      requires Keyed()
      ensures r.None? <==> forall s :: s in salons.Values ==> !NamedAs(s, name)
      ensures r.Some? ==> r.value in salons.Values && NamedAs(r.value, name)
      ensures r.Some? ==> exists k :: 0 <= k < |ids| && salons[ids[k]] == r.value &&
                                      forall j :: 0 <= j < k ==> !NamedAs(salons[ids[j]], name)
    {
      var all := GetAllSalons();
      var r := FirstNamed(all, name);
      assert r.None? ==> forall s :: s in salons.Values ==> !NamedAs(s, name) by {
        if r.None? {
          forall s | s in salons.Values ensures !NamedAs(s, name) {
            var i :| 0 <= i < |all| && all[i] == s;
          }
        }
      }
      r
    }

    /** `addEmployeeToSalon(salonId, employee)`: false and no change for an unknown id. */
    method AddEmployeeToSalon(salonId: string, employee: Employee) returns (ok: bool)
      requires Valid()
      modifies if salonId in salons then {salons[salonId]} else {}
      ensures Valid()
      ensures ok <==> salonId in salons
      ensures ok ==> var s := salons[salonId];
                     s.EmploysId(employee.Id()) &&
                     s.employees == if old(s.EmploysId(employee.Id())) then old(s.employees)
                                    else old(s.employees) + [employee]
      ensures ok ==> var s := salons[salonId];
                     s.services == old(s.services) && s.name == old(s.name) && s.workingHours == old(s.workingHours)
    {
      if salonId !in salons {
        return false;
      }
      var salon := salons[salonId];
      salon.AddEmployee(employee);
      ok := true;
    }

    /** `addServiceToSalon(salonId, service)`: false and no change for an unknown id. */
    method AddServiceToSalon(salonId: string, service: Service) returns (ok: bool)
      requires Valid()
      modifies if salonId in salons then {salons[salonId]} else {}
      ensures Valid()
      ensures ok <==> salonId in salons
      ensures ok ==> var s := salons[salonId];
                     s.OffersService(service.name) &&
                     s.services == if old(s.OffersService(service.name)) then old(s.services)
                                   else old(s.services) + [service]
      ensures ok ==> var s := salons[salonId];
                     s.employees == old(s.employees) && s.name == old(s.name) && s.workingHours == old(s.workingHours)
    {
      if salonId !in salons {
        return false;
      }
      var salon := salons[salonId];
      salon.AddService(service);
      ok := true;
    }

    /** `removeSalon(id)`: whether the id was present; afterwards it is not. */
    method RemoveSalon(id: string) returns (removed: bool)
      requires Valid()
      modifies this
      ensures Valid()
      ensures removed == (id in old(salons))
      ensures salons == old(salons) - {id} && id !in salons
      ensures ids == Without(old(ids), id)
    {
      removed := id in salons;
      RemoveKeepsListsKeys(ids, salons, id);
      salons := salons - {id};
      ids := Without(ids, id);
    }

    /** `getSalonCount()`: the size of the map. */
    function GetSalonCount(): (n: nat)
      reads this
      requires Keyed()
      ensures n == |ids| == |GetAllSalons()|
    {
      DistinctCardinality(ids);
      assert salons.Keys == set k | k in ids;
      |salons|
    }

    /** `findSalonsWithService(serviceName)`. */
    function FindSalonsWithService(serviceName: string): (r: seq<Salon>)
      reads this, salons.Values
      requires Keyed()
      ensures forall s :: s in r ==> s in salons.Values && s.OffersService(serviceName)
      ensures forall s :: s in salons.Values && s.OffersService(serviceName) ==> s in r
      ensures IsSubsequence(r, GetAllSalons())
    {
      Offering(GetAllSalons(), serviceName)
    }

    /** `getAllEmployees()`: each salon's employees appended in salon order. */
    method GetAllEmployees() returns (employees: seq<Employee>)
      requires Keyed()
      ensures employees == StaffOf(GetAllSalons())
    {
      var all := GetAllSalons();
      employees := [];
      for i := 0 to |all|
        invariant employees == StaffOf(all[..i])
      {
        StaffOfStep(all, i);
        employees := employees + all[i].employees;
      }
      assert all[..|all|] == all;
    }

    /** `getAllServices()`: every service of every salon set into a map keyed by
        name, whose values are returned in key order. */
    method GetAllServices() returns (services: seq<Service>)
      requires Keyed()
      ensures services == Merged(MenuOf(GetAllSalons()))
      ensures UniqueBy(services, NameOf)
    {
      var all := GetAllSalons();
      var index := EmptyIndex;
      for i := 0 to |all|
        invariant index == PutAll(EmptyIndex, MenuOf(all[..i]))
      {
        var offered := all[i].services;
        assert MenuOf(all[..i]) + offered[..0] == MenuOf(all[..i]);
        for j := 0 to |offered|
          invariant index == PutAll(EmptyIndex, MenuOf(all[..i]) + offered[..j])
        {
          assert offered[..j + 1] == offered[..j] + [offered[j]];
          assert MenuOf(all[..i]) + offered[..j + 1] == (MenuOf(all[..i]) + offered[..j]) + [offered[j]];
          PutAllStep(EmptyIndex, MenuOf(all[..i]) + offered[..j], offered[j]);
          index := Put(index, offered[j]);
        }
        assert offered[..|offered|] == offered;
        MenuOfStep(all, i);
      }
      assert all[..|all|] == all;
      PutAllSummarizes(MenuOf(all));
      services := ValuesAt(index.keys, index.byName);
      MergedNamesUnique(MenuOf(all));
    }
  }
}
