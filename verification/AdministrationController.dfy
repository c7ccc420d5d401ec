/**
 The administration panel's loading and its commands: a load counts itself with
 a sequence number and is installed only if it is still the latest, and an
 acknowledged command empties the cache and loads again in the same turn.
 */
module AdministrationController {
  import opened Wrappers
  import opened AdministrationResources

  // The values among some outcomes.
  function Ready(outcomes: map<Key, Outcome>): map<Key, Payload> {
    map k | k in outcomes && outcomes[k].Ok? :: outcomes[k].value
  }

  class Controller {
    const cache: ResourceCache
    var loadSequence: nat
    var shown: map<Key, Payload>

    constructor ()
      ensures fresh(cache) && loadSequence == 0 && shown == map[]
      ensures cache.View() == Cache(map[], map[])
    {
      cache := new ResourceCache();
      loadSequence := 0;
      shown := map[];
    }

    method Load(section: Section, permissions: set<Permission>, refetch: bool)
      returns (sequence: nat, starts: Option<map<Key, Start>>)
      modifies this`loadSequence, cache
      ensures sequence == loadSequence == old(loadSequence) + 1
      ensures starts.Some? <==> CanOpen(section, permissions)
      ensures starts.None? ==> cache.View() == old(cache.View())
      ensures starts.Some? ==>
                var o := BeginAll(old(cache.View()), KeysFor(section, permissions), refetch, old(cache.next));
                starts.value == o.starts && cache.View() == o.cache && cache.next == o.next
    {
      loadSequence := loadSequence + 1;
      sequence := loadSequence;
      starts := cache.Load(section, permissions, refetch);
    }

    // Every resource of the load has answered.
    method Finish(sequence: nat, outcomes: map<Key, Outcome>)
      modifies this`shown
      ensures shown == if sequence == loadSequence then old(shown) + Ready(outcomes) else old(shown)
    {
      if sequence != loadSequence { return; }
      shown := shown + Ready(outcomes);
    }

    // The panel moves to another section, or closes.
    method Leave()
      modifies this`loadSequence
      ensures loadSequence == old(loadSequence) + 1
    {
      loadSequence := loadSequence + 1;
    }

    // What `run` does in the turn in which the command is acknowledged.
    method Acknowledge(section: Section, permissions: set<Permission>)
      returns (sequence: nat, starts: Option<map<Key, Start>>)
      modifies this`loadSequence, cache
      ensures sequence == loadSequence == old(loadSequence) + 1
      ensures starts.Some? <==> CanOpen(section, permissions)
      ensures starts.None? ==> cache.View() == Cache(map[], map[])
      ensures starts.Some? ==>
                var o := BeginAll(Cache(map[], map[]), KeysFor(section, permissions), false, old(cache.next));
                starts.value == o.starts && cache.View() == o.cache && cache.next == o.next
    {
      cache.Invalidate();
      sequence, starts := Load(section, permissions, false);
    }
  }
}
