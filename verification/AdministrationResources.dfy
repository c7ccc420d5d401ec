/**
 The administration resource cache: one promise per resource while it is being
 fetched, the value once it has arrived.  Requests are known by number, and
 every loader call gets a new one.
 */
module AdministrationResources {
  import opened Wrappers

  datatype Section =
    | BusinessProfile | DayCurrency | Taxes | Tips | Registers | ZonesTables | Stations | Personnel

  datatype Permission = PersonnelView | AdministrationView | CatalogView

  datatype Key = Admin | Tax | People | Products | Configuration

  type Payload = string
  type Outcome = Result<Payload, string>

  predicate CanOpen(section: Section, permissions: set<Permission>) {
    (if section.Personnel? then PersonnelView else AdministrationView) in permissions
  }

  // The resources a section is made of, in the order they are requested.
  function KeysFor(section: Section, permissions: set<Permission>): (keys: seq<Key>)
    ensures forall i, j | 0 <= i < j < |keys| :: keys[i] != keys[j]
  {
    match section
    case Personnel => [People]
    case Taxes => [Admin, Tax]
    case Stations => if CatalogView in permissions then [Admin, Tax, Products] else [Admin, Tax]
    case Tips => [Admin, Configuration]
    case _ => [Admin]
  }

  datatype Cache = Cache(values: map<Key, Payload>, pending: map<Key, nat>)

  // How the load of one resource starts: from the cache, or waiting for a request.
  datatype Start = Hit(value: Payload) | Waiting(request: nat)

  function Dropped(c: Cache, key: Key, refetch: bool): Cache {
    if refetch then Cache(c.values - {key}, c.pending - {key}) else c
  }

  predicate MustRequest(c: Cache, key: Key) { key !in c.values && key !in c.pending }

  // `next` is the number a new request would get.
  function Begin(c: Cache, key: Key, refetch: bool, next: nat): (Cache, Start) {
    var d := Dropped(c, key, refetch);
    if key in d.values then (d, Hit(d.values[key]))
    else if key in d.pending then (d, Waiting(d.pending[key]))
    else (d.(pending := d.pending[key := next]), Waiting(next))
  }

  // A waiter goes on: only the registered request may write, and it leaves.
  function Resumed(c: Cache, key: Key, request: nat, outcome: Outcome): Cache {
    if key !in c.pending || c.pending[key] != request then c
    else
      Cache(if outcome.Ok? then c.values[key := outcome.value] else c.values, c.pending - {key})
  }

  datatype Opening = Opening(cache: Cache, starts: map<Key, Start>, next: nat)

  function BeginAll(c: Cache, keys: seq<Key>, refetch: bool, next: nat): Opening {
    if keys == [] then Opening(c, map[], next)
    else
      var before := BeginAll(c, keys[..|keys| - 1], refetch, next);
      var key := keys[|keys| - 1];
      var (cache, start) := Begin(before.cache, key, refetch, before.next);
      Opening(cache, before.starts[key := start],
              if MustRequest(Dropped(before.cache, key, refetch), key) then before.next + 1 else before.next)
  }

  class ResourceCache {
    var values: map<Key, Payload>
    var pending: map<Key, nat>
    var next: nat // number of the next loader call

    function View(): Cache
      reads this
    {
      Cache(values, pending)
    }

    constructor ()
      ensures View() == Cache(map[], map[]) && next == 0
    {
      values, pending, next := map[], map[], 0;
    }

    method Invalidate()
      modifies this
      ensures View() == Cache(map[], map[]) && next == old(next)
    {
      values := map[];
      pending := map[];
    }

    method BeginKey(key: Key, refetch: bool) returns (start: Start)
      modifies this
      ensures (View(), start) == Begin(old(View()), key, refetch, old(next))
      ensures next == old(next) + if MustRequest(Dropped(old(View()), key, refetch), key) then 1 else 0
    {
      if refetch {
        values := values - {key};
        pending := pending - {key};
      }
      if key in values { return Hit(values[key]); }
      if key !in pending {
        pending := pending[key := next];
        next := next + 1;
      }
      start := Waiting(pending[key]);
    }

    // None when the section may not be opened.
    method Load(section: Section, permissions: set<Permission>, refetch: bool)
      returns (starts: Option<map<Key, Start>>)
      modifies this
      ensures !CanOpen(section, permissions) ==> starts == None && View() == old(View()) && next == old(next)
      ensures CanOpen(section, permissions) ==>
                var o := BeginAll(old(View()), KeysFor(section, permissions), refetch, old(next));
                starts == Some(o.starts) && View() == o.cache && next == o.next
    {
      if !CanOpen(section, permissions) { return None; }
      var keys := KeysFor(section, permissions);
      var begun: map<Key, Start> := map[];
      assert keys[..|keys|] == keys;
      for i := 0 to |keys|
        invariant var o := BeginAll(old(View()), keys[..i], refetch, old(next));
                  begun == o.starts && View() == o.cache && next == o.next
      {
        var start := BeginKey(keys[i], refetch);
        begun := begun[keys[i] := start];
        assert keys[..i + 1][..i] == keys[..i];
      }
      starts := Some(begun);
    }

    method Resume(key: Key, request: nat, outcome: Outcome)
      modifies this
      ensures View() == Resumed(old(View()), key, request, outcome) && next == old(next)
    {
      if outcome.Ok? {
        if key in pending && pending[key] == request { values := values[key := outcome.value]; }
      }
      if key in pending && pending[key] == request { pending := pending - {key}; }
    }
  }
}
