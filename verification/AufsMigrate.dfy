/** The aufs driver (docker/daemon/graphdriver/aufs): registering an image with its list of ancestors, migrating a
    whole image store in parent-first order whatever the order of the map (migrate.go), and counting the users of a
    mount (aufs.go).
  */
module AufsMigrate {
  import opened Wrappers

  datatype Metadata = Metadata(id: string, parentId: string)

  type Store = map<string, Metadata>

  /** Every image is stored under its own id, and names no parent or one that is stored too. */
  predicate Complete(m: Store) {
    forall id :: id in m ==> id != "" && m[id].id == id && (m[id].parentId == "" || m[id].parentId in m)
  }

  /** A rank that falls from every image to its parent: parent links have no cycle. */
  ghost predicate Ranked(m: Store, rank: map<string, nat>) {
    && m.Keys <= rank.Keys
    && forall id :: id in m && m[id].parentId in m ==> rank[m[id].parentId] < rank[id]
  }

  /** All the ancestors of an image, nearest first. */
  ghost function Ancestors(m: Store, rank: map<string, nat>, id: string): seq<string>
    requires Complete(m) && Ranked(m, rank) && id in m
    decreases rank[id]
  {
    if m[id].parentId == "" then [] else [m[id].parentId] + Ancestors(m, rank, m[id].parentId)
  }

  /** The layers files that images had when the migration began list exactly their ancestors. */
  ghost predicate Right(m: Store, rank: map<string, nat>, found: map<string, seq<string>>)
    requires Complete(m) && Ranked(m, rank)
  {
    forall id :: id in m && id in found ==> found[id] == Ancestors(m, rank, id)
  }

  /** The list an image ends with: the one found, or else its parent and the parent's list. */
  ghost function Inherited(m: Store, rank: map<string, nat>, found: map<string, seq<string>>, id: string): seq<string>
    requires Complete(m) && Ranked(m, rank) && id in m
    decreases rank[id]
  {
    if id in found then found[id]
    else if m[id].parentId == "" then []
    else [m[id].parentId] + Inherited(m, rank, found, m[id].parentId)
  }

  /** The nearest of id and its ancestors that was found with a layers file, if any, was found with the right one. */
  ghost predicate NearestRight(m: Store, rank: map<string, nat>, found: map<string, seq<string>>, id: string)
    requires Complete(m) && Ranked(m, rank) && id in m
    decreases rank[id]
  {
    if id in found then found[id] == Ancestors(m, rank, id)
    else m[id].parentId == "" || NearestRight(m, rank, found, m[id].parentId)
  }

  /** An image ends with its full ancestry if and only if the nearest list found is right. */
  lemma {:induction false} InheritedRight(m: Store, rank: map<string, nat>, found: map<string, seq<string>>, id: string)
    requires Complete(m) && Ranked(m, rank) && id in m
    ensures Inherited(m, rank, found, id) == Ancestors(m, rank, id) <==> NearestRight(m, rank, found, id)
    decreases rank[id]
  {
    var parent := m[id].parentId;
    if id !in found && parent != "" {
      InheritedRight(m, rank, found, parent);
      assert Inherited(m, rank, found, id)[1..] == Inherited(m, rank, found, parent);
      assert Ancestors(m, rank, id)[1..] == Ancestors(m, rank, parent);
    }
  }

  lemma {:induction false} RightNearest(m: Store, rank: map<string, nat>, found: map<string, seq<string>>, id: string)
    requires Complete(m) && Ranked(m, rank) && id in m && Right(m, rank, found)
    ensures NearestRight(m, rank, found, id)
    decreases rank[id]
  {
    if id !in found && m[id].parentId != "" {
      RightNearest(m, rank, found, m[id].parentId);
    }
  }

  /** Every image ends with its full ancestry if and only if every list found is right. */
  lemma AllRight(m: Store, rank: map<string, nat>, found: map<string, seq<string>>)
    requires Complete(m) && Ranked(m, rank)
    ensures (forall id :: id in m ==> Inherited(m, rank, found, id) == Ancestors(m, rank, id)) <==>
      Right(m, rank, found)
  {
    forall id | id in m
      ensures Inherited(m, rank, found, id) == Ancestors(m, rank, id) <==> NearestRight(m, rank, found, id)
      ensures Right(m, rank, found) ==> NearestRight(m, rank, found, id)
    {
      InheritedRight(m, rank, found, id);
      if Right(m, rank, found) {
        RightNearest(m, rank, found, id);
      }
    }
  }

  /** What a Create before its parent was registered leaves behind: an empty list, which the migration then keeps. */
  lemma FailedCreateStays(m: Store, rank: map<string, nat>, found: map<string, seq<string>>, id: string)
    requires Complete(m) && Ranked(m, rank) && id in m && m[id].parentId != "" && m[id].parentId !in found
    ensures var left := found[id := []];
      !Right(m, rank, left) && Inherited(m, rank, left, id) == [] && Ancestors(m, rank, id) != []
  {
    assert id in found[id := []];
  }

  /** Each image created had its parent registered: before the migration, or earlier in it. */
  predicate ParentsFirst(m: Store, before: set<string>, created: seq<string>) {
    forall i :: 0 <= i < |created| ==>
      created[i] in m && (m[created[i]].parentId == "" || m[created[i]].parentId in before ||
        m[created[i]].parentId in created[..i])
  }

  lemma ParentsFirstSnoc(m: Store, before: set<string>, created: seq<string>, id: string)
    requires ParentsFirst(m, before, created) && id in m
    requires m[id].parentId == "" || m[id].parentId in before || m[id].parentId in created
    ensures ParentsFirst(m, before, created + [id])
  {
    var more := created + [id];
    forall i | 0 <= i < |more|
      ensures more[i] in m && (m[more[i]].parentId == "" || m[more[i]].parentId in before ||
        m[more[i]].parentId in more[..i])
    {
      if i < |created| {
        assert more[i] == created[i] && more[..i] == created[..i];
      } else {
        assert more[..i] == created;
      }
    }
  }

  /** The layers files are those of start, unchanged, and of the images migrated. */
  ghost predicate Listed(m: Store, rank: map<string, nat>, start: map<string, seq<string>>,
                         layers: map<string, seq<string>>, migrated: set<string>)
    requires Complete(m) && Ranked(m, rank)
  {
    && migrated <= m.Keys
    && layers.Keys == migrated + start.Keys
    && (forall id :: id in migrated ==> layers[id] == Inherited(m, rank, start, id))
    && forall id :: id in start ==> layers[id] == start[id]
  }

  /** The images migrated were each relocated once, and those without a layers file created once, parents first. */
  ghost predicate Logged(m: Store, start: map<string, seq<string>>, migrated: set<string>, relocated: seq<string>,
                         created: seq<string>)
  {
    && NoRepeats(relocated) && (forall id :: id in relocated <==> id in migrated)
    && NoRepeats(created) && (forall id :: id in created <==> id in migrated && id !in start)
    && ParentsFirst(m, start.Keys, created)
  }

  lemma ListedNext(m: Store, rank: map<string, nat>, start: map<string, seq<string>>, layers: map<string, seq<string>>,
                   migrated: set<string>, id: string, layers': map<string, seq<string>>)
    requires Complete(m) && Ranked(m, rank) && Listed(m, rank, start, layers, migrated) && id in m && id !in migrated
    requires m[id].parentId == "" || m[id].parentId in migrated
    requires layers' ==
      if id in layers then layers
      else layers[id := if m[id].parentId != "" then [m[id].parentId] + layers[m[id].parentId] else []]
    ensures Listed(m, rank, start, layers', migrated + {id})
  {
    assert layers'.Keys == migrated + {id} + start.Keys;
  }

  lemma LoggedNext(m: Store, start: map<string, seq<string>>, migrated: set<string>, relocated: seq<string>,
                   created: seq<string>, id: string)
    requires Logged(m, start, migrated, relocated, created) && id in m && id !in migrated
    requires m[id].parentId == "" || m[id].parentId in migrated
    ensures Logged(m, start, migrated + {id}, relocated + [id], if id in start then created else created + [id])
  {
    hide ParentsFirst;
    if id !in start {
      ParentsFirstSnoc(m, start.Keys, created, id);
    }
  }

  class Driver {
    var layers: map<string, seq<string>>  // the layers directory: id, then the lines of its file
    ghost var relocated: seq<string>      // the images moved so far
    ghost var created: seq<string>        // the images registered so far
    var migrated: set<string>

    constructor (found: map<string, seq<string>>)
      ensures layers == found && relocated == [] && created == [] && migrated == {}
    {
      layers, migrated := found, {};
      relocated, created := [], [];
    }

    predicate Exists(id: string)
      reads this
    {
      id in layers
    }

    // the non-empty lines of a layers file
    function ParentIds(id: string): Option<seq<string>>
      reads this
    {
      if id in layers then Some(layers[id]) else None
    }

    /** Create writes the parent and then the parent's own list; without a layers file for the parent it fails and
        leaves an empty one. The file is there, empty, when the parent's list is read. */
    method Create(id: string, parent: string) returns (ok: bool)
      modifies this`layers, this`created
      ensures created == old(created) + [id]
      ensures ok <==> parent == "" || parent == id || parent in old(layers)
      ensures layers == old(layers)[id :=
        if parent == "" || !ok then []
        else if parent == id then [id]
        else [parent] + old(layers)[parent]]
    {
      created := created + [id];
      layers := layers[id := []];
      if parent != "" {
        var ids := ParentIds(parent);
        if ids.None? {
          return false;
        }
        assert [parent] + [] == [parent];
        layers := layers[id := [parent] + ids.value];
      }
      return true;
    }

    method TryRelocate(id: string)
      modifies this`relocated
      ensures relocated == old(relocated) + [id]
    {
      relocated := relocated + [id];
    }

    /** What holds between two images of a migration that began with the layers files of start. */
    ghost predicate Migrating(m: Store, rank: map<string, nat>, start: map<string, seq<string>>)
      requires Complete(m) && Ranked(m, rank)
      reads this
    {
      Listed(m, rank, start, layers, migrated) && Logged(m, start, migrated, relocated, created)
    }

    /** The parent goes first, and an image already migrated is left alone. */
    method MigrateImage(m: Store, id: string, ghost rank: map<string, nat>, ghost start: map<string, seq<string>>)
      returns (ok: bool)
      requires Complete(m) && Ranked(m, rank) && id in m
      requires Migrating(m, rank, start)
      modifies this
      ensures Migrating(m, rank, start)
      ensures ok && id in migrated && old(migrated) <= migrated
      ensures forall x :: x in migrated && x !in old(migrated) ==> rank[x] <= rank[id]
      decreases rank[id]
    {
      ok := true;
      if id !in migrated {
        if m[id].parentId != "" {
          var _ := MigrateImage(m, m[id].parentId, rank, start);
        }
        ok := MigrateOne(m, id, rank, start);
      }
    }

    // An image whose parent is migrated.
    method MigrateOne(m: Store, id: string, ghost rank: map<string, nat>, ghost start: map<string, seq<string>>)
      returns (ok: bool)
      requires Complete(m) && Ranked(m, rank) && id in m && id !in migrated
      requires m[id].parentId == "" || m[id].parentId in migrated
      requires Migrating(m, rank, start)
      modifies this
      ensures Migrating(m, rank, start)
      ensures ok && migrated == old(migrated) + {id}
    {
      hide ParentsFirst;
      ghost var layers0 := layers;
      LoggedNext(m, start, migrated, relocated, created, id);
      TryRelocate(id);
      if !Exists(id) {
        var made := Create(id, m[id].parentId);
        if !made {
          return false;
        }
      }
      ListedNext(m, rank, start, layers0, migrated, id, layers);
      migrated := migrated + {id};
      return true;
    }

    /** migrateImages, whatever layers files it finds and in whatever order the map gives the images: every image of the
        store is relocated exactly once, every parent is registered before its children, and every image ends with the
        list found for it or else its parent and the parent's list. That is its full ancestry, nearest first, for all
        images if and only if every list found is right. */
    method MigrateImages(m: Store, ghost rank: map<string, nat>) returns (ok: bool)
      requires Complete(m) && Ranked(m, rank) && migrated == {} && relocated == [] && created == []
      modifies this
      ensures ok
      ensures NoRepeats(relocated) && forall id :: id in relocated <==> id in m
      ensures NoRepeats(created) && (forall id :: id in created <==> id in m && id !in old(layers))
      ensures ParentsFirst(m, old(layers).Keys, created)
      ensures layers.Keys == m.Keys + old(layers).Keys
      ensures forall id :: id in m ==> layers[id] == Inherited(m, rank, old(layers), id)
      ensures (forall id :: id in m ==> layers[id] == Ancestors(m, rank, id)) <==> Right(m, rank, old(layers))
      ensures forall id :: id in old(layers) ==> layers[id] == old(layers)[id]
    {
      ghost var start := layers;
      var rest := m.Keys;
      while rest != {}
        invariant rest <= m.Keys && m.Keys - rest <= migrated
        invariant Migrating(m, rank, start)
      {
        var id :| id in rest;
        rest := rest - {id};
        ok := MigrateImage(m, id, rank, start);
        if !ok {
          return false;
        }
      }
      assert migrated == m.Keys;
      AllRight(m, rank, start);
      return true;
    }
  }

  /** A list of ancestors is as long as the ancestry and names no image twice. */
  lemma {:induction false} AncestorsDistinct(m: Store, rank: map<string, nat>, id: string)
    requires Complete(m) && Ranked(m, rank) && id in m
    ensures forall a :: a in Ancestors(m, rank, id) ==> a in m && rank[a] < rank[id]
    ensures NoRepeats(Ancestors(m, rank, id))
    decreases rank[id]
  {
    if m[id].parentId != "" {
      AncestorsDistinct(m, rank, m[id].parentId);
    }
  }

  // ---- the users of a mount ----

  /** active counts the users of an id; mounted are the ids mounted at their mnt directory. */
  datatype Mounts = Mounts(active: map<string, nat>, mounted: set<string>)

  function Users(a: Mounts, id: string): nat {
    if id in a.active then a.active[id] else 0
  }

  /** Get: the first user of an id with ancestors mounts it. */
  function Got(a: Mounts, id: string, ids: seq<string>, mountFails: bool): (r: (Mounts, bool)) {
    var mount := ids != [] && Users(a, id) == 0;
    if mount && mountFails then (a, false)
    else
      (Mounts(a.active[id := Users(a, id) + 1], if mount then a.mounted + {id} else a.mounted), true)
  }

  /** Put: the last user of an id with ancestors unmounts it. */
  function Released(a: Mounts, id: string, ids: seq<string>): Mounts {
    if Users(a, id) > 1 then a.(active := a.active[id := Users(a, id) - 1])
    else Mounts(a.active - {id}, if ids != [] then a.mounted - {id} else a.mounted)
  }

  class ActiveMounts {
    var active: map<string, nat>
    var mounted: set<string>

    function View(): Mounts
      reads this
    {
      Mounts(active, mounted)
    }

    constructor ()
      ensures View() == Mounts(map[], {})
    {
      active, mounted := map[], {};
    }

    method Get(id: string, ids: seq<string>, mountFails: bool) returns (ok: bool)
      modifies this
      ensures (View(), ok) == Got(old(View()), id, ids, mountFails)
    {
      var count := if id in active then active[id] else 0;
      if |ids| > 0 && count == 0 {
        if mountFails {
          return false;
        }
        mounted := mounted + {id};
      }
      active := active[id := count + 1];
      return true;
    }

    method Put(id: string, ids: seq<string>)
      modifies this
      ensures View() == Released(old(View()), id, ids)
    {
      var count := if id in active then active[id] else 0;
      if count > 1 {
        active := active[id := count - 1];
      } else {
        if |ids| > 0 {
          mounted := mounted - {id};
        }
        active := active - {id};
      }
    }
  }

  datatype Use = Take(id: string, mountFails: bool) | Leave(id: string)

  /** parents are the layers files, which do not change meanwhile. */
  function Used(parents: string -> seq<string>, uses: seq<Use>): Mounts {
    if uses == [] then Mounts(map[], {})
    else
      var a := Used(parents, uses[..|uses| - 1]);
      match uses[|uses| - 1]
      case Take(id, fails) => Got(a, id, parents(id), fails).0
      case Leave(id) => Released(a, id, parents(id))
  }

  /** Successful Gets less Puts that had something to put. */
  function Outstanding(parents: string -> seq<string>, uses: seq<Use>, id: string): int {
    if uses == [] then 0
    else
      var before := uses[..|uses| - 1];
      var a := Used(parents, before);
      Outstanding(parents, before, id) +
      match uses[|uses| - 1]
      case Take(x, fails) => if x == id && Got(a, x, parents(x), fails).1 then 1 else 0
      case Leave(x) => if x == id && Users(a, x) > 0 then -1 else 0
  }

  /** In every sequence of Gets and Puts the count is what is outstanding, and an id is mounted exactly while it has
      users and ancestors. */
  lemma {:induction false} MountedWhileUsed(parents: string -> seq<string>, uses: seq<Use>, id: string)
    ensures Users(Used(parents, uses), id) == Outstanding(parents, uses, id)
    ensures id in Used(parents, uses).mounted <==> Users(Used(parents, uses), id) > 0 && parents(id) != []
  {
    if uses == [] {
    } else {
      MountedWhileUsed(parents, uses[..|uses| - 1], id);
    }
  }
}
