/**
  `NPCManager`: the table of NPCs by id, and the counter that issues ids to NPCs it
  creates itself (from 1000 upward). The update timer the constructor starts is not
  modelled; `NPC.Update` is what each timer tick would call.
*/
module NPCRegistry {
  import opened Wrappers
  import opened NPCModel
  import JsonNpcLoader

  const FIRST_NPC_ID: int := 1000

  /** The table after `addNPC` of each NPC in turn. */
  function AddAll(m: map<int, NPC>, ns: seq<NPC>): map<int, NPC> {
    if ns == [] then m
    else AddAll(m, ns[..|ns| - 1])[ns[|ns| - 1].id := ns[|ns| - 1]]
  }

  predicate IdAt(ns: seq<NPC>, i: int, id: int)
    requires 0 <= i < |ns|
  {
    ns[i].id == id
  }

  /** An id is in the table exactly when it was there before or one of the added NPCs has it. */
  lemma {:induction false} AddAllKeys(m: map<int, NPC>, ns: seq<NPC>, id: int)
    ensures id in AddAll(m, ns) <==> id in m || exists i | 0 <= i < |ns| :: IdAt(ns, i, id)
  {
    if ns != [] {
      var init := ns[..|ns| - 1];
      AddAllKeys(m, init, id);
      forall i | 0 <= i < |init|
        ensures IdAt(init, i, id) == IdAt(ns, i, id)
      {
        assert init[i] == ns[i];
      }
      if ns[|ns| - 1].id != id {
        if exists i | 0 <= i < |ns| :: IdAt(ns, i, id) {
          var i :| 0 <= i < |ns| && IdAt(ns, i, id);
          assert IdAt(init, i, id);
        }
      } else {
        assert IdAt(ns, |ns| - 1, id);
      }
    }
  }

  /** Of two NPCs with the same id, the one added later stays. */
  lemma {:induction false} AddAllLaterWins(m: map<int, NPC>, ns: seq<NPC>, j: int)
    requires 0 <= j < |ns|
    requires forall i | j < i < |ns| :: ns[i].id != ns[j].id
    ensures ns[j].id in AddAll(m, ns) && AddAll(m, ns)[ns[j].id] == ns[j]
  {
    if j < |ns| - 1 {
      var init := ns[..|ns| - 1];
      assert init[j] == ns[j];
      forall i | j < i < |init|
        ensures init[i].id != init[j].id
      {
        assert init[i] == ns[i];
      }
      AddAllLaterWins(m, init, j);
    }
  }

  /** Every key maps to the NPC with that id. */
  predicate KeyedById(m: map<int, NPC>) {
    forall id | id in m :: m[id].id == id
  }

  lemma {:induction false} AddAllKeyedById(m: map<int, NPC>, ns: seq<NPC>)
    requires KeyedById(m)
    ensures KeyedById(AddAll(m, ns))
  {
    if ns != [] {
      AddAllKeyedById(m, ns[..|ns| - 1]);
    }
  }

  class NPCManager {
    var npcs: map<int, NPC>
    var nextNpcId: int

    /** The table is keyed by the NPCs' own ids. */
    ghost predicate Valid()
      reads this
    {
      KeyedById(npcs)
    }

    constructor ()
      ensures Valid()
      ensures npcs == map[] && nextNpcId == FIRST_NPC_ID
    {
      npcs := map[];
      nextNpcId := FIRST_NPC_ID;
    }

    /** `addNPC`: stores `npc` under its id, replacing any NPC with that id. */
    method AddNPC(npc: NPC)
      requires Valid()
      modifies this
      ensures Valid()
      ensures npcs == old(npcs)[npc.id := npc] && nextNpcId == old(nextNpcId)
    {
      npcs := npcs[npc.id := npc];
    }

    /** `createNPC`: a new NPC with the next id, stored and returned. */
    method CreateNPC(x: int, y: int, npcType: Option<string>, behavior: NPCBehavior) returns (npc: NPC)
      requires Valid()
      modifies this
      ensures Valid() && fresh(npc)
      ensures npc.View() == NewNpc(old(nextNpcId), x, y, npcType, behavior)
      ensures npcs == old(npcs)[old(nextNpcId) := npc]
      ensures nextNpcId == old(nextNpcId) + 1
    {
      npc := new NPC(nextNpcId, x, y, npcType, behavior);
      nextNpcId := nextNpcId + 1;
      AddNPC(npc);
    }

    /** `getNPCs`: a copy of the table (a map value here, so changing it cannot reach the table). */
    method GetNPCs() returns (m: map<int, NPC>)
      ensures m == npcs
    {
      m := npcs;
    }

    /** `removeNPC`: drops that id, if present. */
    method RemoveNPC(id: int)
      requires Valid()
      modifies this
      ensures Valid()
      ensures npcs == old(npcs) - {id} && nextNpcId == old(nextNpcId)
    {
      npcs := npcs - {id};
    }

    /** `loadNPCsFromMap`: adds the loaded NPCs in file order. */
    method LoadNPCsFromMap(contents: Option<string>)
      requires Valid()
      modifies this
      ensures Valid() && nextNpcId == old(nextNpcId)
      ensures var seeds := JsonNpcLoader.LoadedSeeds(contents);
              exists loaded: seq<NPC> ::
                && npcs == AddAll(old(npcs), loaded)
                && |loaded| == |seeds|
                && forall i | 0 <= i < |loaded| ::
                     loaded[i].View() == NewNpc(seeds[i].id, seeds[i].x, seeds[i].y, seeds[i].npcType, seeds[i].behavior)
    {
      var loaded := JsonNpcLoader.LoadNPCsFromMap(contents);
      ghost var seeds := JsonNpcLoader.LoadedSeeds(contents);
      var i := 0;
      while i < |loaded|
        invariant 0 <= i <= |loaded|
        invariant Valid() && nextNpcId == old(nextNpcId)
        invariant npcs == AddAll(old(npcs), loaded[..i])
        invariant forall k | 0 <= k < |loaded| :: fresh(loaded[k])
        invariant forall k | 0 <= k < |loaded| ::
                    loaded[k].View() == NewNpc(seeds[k].id, seeds[k].x, seeds[k].y, seeds[k].npcType, seeds[k].behavior)
      {
        assert loaded[..i + 1][..i] == loaded[..i];
        AddNPC(loaded[i]);
        i := i + 1;
      }
      assert loaded[..i] == loaded;
    }

    /** `loadNPC`: adds the file's first NPC, if there is one, and returns it. */
    method LoadNPC(contents: Option<string>) returns (npc: Option<NPC>)
      requires Valid()
      modifies this
      ensures Valid() && nextNpcId == old(nextNpcId)
      ensures npc.None? <==> JsonNpcLoader.LoadedSeeds(contents) == []
      ensures npc.None? ==> npcs == old(npcs)
      ensures npc.Some? ==> npcs == old(npcs)[npc.value.id := npc.value]
      ensures npc.Some? ==>
                && fresh(npc.value)
                && var s := JsonNpcLoader.LoadedSeeds(contents)[0];
                   npc.value.View() == NewNpc(s.id, s.x, s.y, s.npcType, s.behavior)
    {
      npc := JsonNpcLoader.LoadNPC(contents);
      if npc.Some? {
        AddNPC(npc.value);
      }
    }
  }
}
