/** The drive's folder tree: creating, moving and deleting folders and placing files, with the bounded ancestor walk
    that guards a move. Each operation is taken as atomic. */
module DriveFolders {
  import opened Wrappers

  type Id = nat
  type Actor = nat
  datatype Folder = Folder(owner: Actor, parent: Option<Id>)
  /** System files have no owner. */
  datatype File = File(owner: Option<Actor>, folder: Option<Id>)
  type Folders = map<Id, Folder>
  datatype Tree = Tree(folders: Folders, files: map<Id, File>)

  const MAX_FOLDER_DEPTH := 1000

  datatype Status = Done | NotFound | FolderCycle | FolderNotEmpty

  // ----- the shape of the tree -----

  predicate OwnedFolder(m: Folders, owner: Actor, id: Id) {
    id in m && m[id].owner == owner
  }

  /** `id` has at most `n` proper ancestors, the last of them a root. */
  predicate RootWithin(m: Folders, id: Id, n: nat)
    decreases n
  {
    id in m && (m[id].parent.None? || (n > 0 && RootWithin(m, m[id].parent.value, n - 1)))
  }

  /** `a` is `x` or one of its `n` nearest ancestors. */
  predicate AtOrAbove(m: Folders, a: Id, x: Id, n: nat)
    decreases n
  {
    a == x || (n > 0 && x in m && m[x].parent.Some? && AtOrAbove(m, a, m[x].parent.value, n - 1))
  }

  /** `x` is the folder `a` or lies somewhere inside it. */
  ghost predicate Inside(m: Folders, x: Id, a: Id) {
    exists n: nat :: AtOrAbove(m, a, x, n)
  }

  /** Every parent exists and has the same owner, and every folder's ancestors end at a root. */
  ghost predicate Forest(m: Folders) {
    && (forall id :: id in m && m[id].parent.Some? ==> OwnedFolder(m, m[id].owner, m[id].parent.value))
    && (forall id :: id in m ==> exists n: nat :: RootWithin(m, id, n))
  }

  ghost predicate FilesPlaced(t: Tree) {
    forall f :: f in t.files && t.files[f].folder.Some? ==>
      t.files[f].folder.value in t.folders && t.files[f].owner == Some(t.folders[t.files[f].folder.value].owner)
  }

  ghost predicate Valid(t: Tree) {
    Forest(t.folders) && FilesPlaced(t)
  }

  // ----- the operations as functions -----

  /** The ancestor walk from `cur`, looking at `k` folders at most; running out counts as a cycle. */
  function Walk(m: Folders, folder: Id, cur: Id, k: nat): Status
    requires cur in m
    decreases k
  {
    if k == 0 then FolderCycle
    else if m[cur].parent.None? then Done
    else if m[cur].parent.value == folder then FolderCycle
    else if m[cur].parent.value !in m then NotFound
    else Walk(m, folder, m[cur].parent.value, k - 1)
  }

  function MoveStatus(m: Folders, owner: Actor, id: Id, parent: Option<Id>): Status {
    if !OwnedFolder(m, owner, id) then NotFound
    else if parent.None? then Done
    else if parent.value == id then FolderCycle
    else if !OwnedFolder(m, owner, parent.value) then NotFound
    else Walk(m, id, parent.value, MAX_FOLDER_DEPTH)
  }

  predicate FolderEmpty(t: Tree, id: Id) {
    && (forall f :: f in t.folders ==> t.folders[f].parent != Some(id))
    && (forall f :: f in t.files ==> t.files[f].folder != Some(id))
  }

  datatype Op =
    | CreateFolder(owner: Actor, id: Id, parent: Option<Id>)
    | MoveFolder(owner: Actor, id: Id, newParent: Option<Id>)
    | DeleteFolder(owner: Actor, id: Id)
    | CreateFile(fileOwner: Option<Actor>, id: Id, folder: Option<Id>)
    | MoveFile(owner: Actor, id: Id, folder: Option<Id>)
    | DeleteFile(id: Id)

  predicate OwnedTarget(m: Folders, owner: Actor, folder: Option<Id>) {
    folder.Some? ==> OwnedFolder(m, owner, folder.value)
  }

  /** Identifiers of new rows are fresh; a taken one changes nothing. System files are never put in a folder. */
  function Apply(t: Tree, op: Op): (Tree, Status) {
    match op
    case CreateFolder(owner, id, parent) =>
      if id in t.folders || !OwnedTarget(t.folders, owner, parent) then (t, NotFound)
      else (t.(folders := t.folders[id := Folder(owner, parent)]), Done)
    case MoveFolder(owner, id, parent) =>
      var s := MoveStatus(t.folders, owner, id, parent);
      (if s == Done then t.(folders := t.folders[id := t.folders[id].(parent := parent)]) else t, s)
    case DeleteFolder(owner, id) =>
      if !OwnedFolder(t.folders, owner, id) then (t, NotFound)
      else if !FolderEmpty(t, id) then (t, FolderNotEmpty)
      else (t.(folders := t.folders - {id}), Done)
    case CreateFile(owner, id, folder) =>
      if id in t.files || (folder.Some? && (owner.None? || !OwnedTarget(t.folders, owner.value, folder)))
      then (t, NotFound)
      else (t.(files := t.files[id := File(owner, folder)]), Done)
    case MoveFile(owner, id, folder) =>
      if id !in t.files || t.files[id].owner != Some(owner) || !OwnedTarget(t.folders, owner, folder) then (t, NotFound)
      else (t.(files := t.files[id := t.files[id].(folder := folder)]), Done)
    case DeleteFile(id) => (t.(files := t.files - {id}), Done)
  }

  // ----- the service -----

  /** The folders and files tables with the operations that have something to check. */
  class Drive {
    var folders: Folders
    var files: map<Id, File>

    constructor ()
      ensures Contents() == Tree(map[], map[])
    {
      folders, files := map[], map[];
    }

    function Contents(): Tree
      reads this
    {
      Tree(folders, files)
    }

    /** The walk as a loop that reassigns the current folder. */
    method CheckNoCycle(folder: Id, parent: Id) returns (s: Status)
      requires parent in folders
      ensures s == Walk(folders, folder, parent, MAX_FOLDER_DEPTH)
    {
      var cur := parent;
      var i := 0;
      while i < MAX_FOLDER_DEPTH
        invariant 0 <= i <= MAX_FOLDER_DEPTH
        invariant cur in folders
        invariant Walk(folders, folder, parent, MAX_FOLDER_DEPTH) == Walk(folders, folder, cur, MAX_FOLDER_DEPTH - i)
      {
        if folders[cur].parent.None? { return Done; }
        if folders[cur].parent.value == folder { return FolderCycle; }
        if folders[cur].parent.value !in folders { return NotFound; }
        cur := folders[cur].parent.value;
        i := i + 1;
      }
      s := FolderCycle;
    }

    method Create(owner: Actor, id: Id, parent: Option<Id>) returns (s: Status)
      modifies this
      ensures (Contents(), s) == Apply(old(Contents()), CreateFolder(owner, id, parent))
      ensures s == Done <==> id !in old(folders) && (parent.Some? ==>
                parent.value in old(folders) && old(folders)[parent.value].owner == owner)
      ensures folders == if s == Done then old(folders)[id := Folder(owner, parent)] else old(folders)
      ensures files == old(files) && (s == Done || s == NotFound)
    {
      if id in folders || (parent.Some? && !OwnedFolder(folders, owner, parent.value)) { return NotFound; }
      folders := folders[id := Folder(owner, parent)];
      s := Done;
    }

    /** A successful move changes the parent of that folder and nothing else; any other outcome changes nothing. */
    method Move(owner: Actor, id: Id, parent: Option<Id>) returns (s: Status)
      modifies this
      ensures (Contents(), s) == Apply(old(Contents()), MoveFolder(owner, id, parent))
      ensures s == Done ==>
                && id in old(folders) && old(folders)[id].owner == owner && folders.Keys == old(folders).Keys
                && folders[id].parent == parent && folders[id].owner == owner
                && forall other :: other in folders && other != id ==> folders[other] == old(folders)[other]
      ensures s != Done ==> folders == old(folders)
      ensures files == old(files)
      ensures id !in old(folders) || old(folders)[id].owner != owner ==> s == NotFound
      ensures id in old(folders) && old(folders)[id].owner == owner ==>
                && (parent.None? ==> s == Done)
                && (parent == Some(id) ==> s == FolderCycle)
                && (parent.Some? && parent.value != id && s != NotFound ==>
                      parent.value in old(folders) && old(folders)[parent.value].owner == owner)
    {
      if !OwnedFolder(folders, owner, id) { return NotFound; }
      if parent.Some? {
        if parent.value == id { return FolderCycle; }
        if !OwnedFolder(folders, owner, parent.value) { return NotFound; }
        s := CheckNoCycle(id, parent.value);
        if s != Done { return; }
      }
      folders := folders[id := folders[id].(parent := parent)];
      s := Done;
    }

    method Delete(owner: Actor, id: Id) returns (s: Status)
      modifies this
      ensures (Contents(), s) == Apply(old(Contents()), DeleteFolder(owner, id))
      ensures s == NotFound <==> id !in old(folders) || old(folders)[id].owner != owner
      ensures s == FolderNotEmpty ==> (exists f :: f in old(folders) && old(folders)[f].parent == Some(id))
                                      || exists f :: f in files && files[f].folder == Some(id)
      ensures s == Done ==> (forall f :: f in old(folders) ==> old(folders)[f].parent != Some(id))
                            && forall f :: f in files ==> files[f].folder != Some(id)
      ensures folders == if s == Done then old(folders) - {id} else old(folders)
      ensures files == old(files) && s != FolderCycle
    {
      if !OwnedFolder(folders, owner, id) { return NotFound; }
      var childFolders := set f | f in folders && folders[f].parent == Some(id);
      var childFiles := set f | f in files && files[f].folder == Some(id);
      if |childFolders| > 0 || |childFiles| > 0 {
        assert exists f :: f in childFolders || f in childFiles;
        return FolderNotEmpty;
      }
      assert forall f :: f in folders && folders[f].parent == Some(id) ==> f in childFolders;
      assert forall f :: f in files && files[f].folder == Some(id) ==> f in childFiles;
      folders := folders - {id};
      s := Done;
    }

    method MoveFileTo(owner: Actor, id: Id, folder: Option<Id>) returns (s: Status)
      modifies this
      ensures (Contents(), s) == Apply(old(Contents()), MoveFile(owner, id, folder))
      ensures s == Done <==> id in old(files) && old(files)[id].owner == Some(owner) && (folder.Some? ==>
                folder.value in folders && folders[folder.value].owner == owner)
      ensures s == Done ==>
                && id in files && files.Keys == old(files).Keys && files[id] == File(Some(owner), folder)
                && forall other :: other in files && other != id ==> files[other] == old(files)[other]
      ensures s != Done ==> s == NotFound && files == old(files)
      ensures folders == old(folders)
    {
      if id !in files || files[id].owner != Some(owner) { return NotFound; }
      if folder.Some? && !OwnedFolder(folders, owner, folder.value) { return NotFound; }
      files := files[id := files[id].(folder := folder)];
      s := Done;
    }
  }

  /** Files appear under their id with their owner, in a folder of that owner or in none, and go without a trace. */
  lemma FilesComeAndGo(t: Tree, owner: Option<Actor>, id: Id, folder: Option<Id>)
    ensures var (t', s) := Apply(t, CreateFile(owner, id, folder));
      && (s == Done <==> id !in t.files && (folder.Some? ==>
            owner.Some? && folder.value in t.folders && t.folders[folder.value].owner == owner.value))
      && t' == if s == Done then Tree(t.folders, t.files[id := File(owner, folder)]) else t
    ensures Apply(t, DeleteFile(id)).0 == Tree(t.folders, t.files - {id})
    ensures id !in t.files && Apply(t, CreateFile(owner, id, folder)).1 == Done ==>
              Apply(Apply(t, CreateFile(owner, id, folder)).0, DeleteFile(id)).0 == t
  {
    if id !in t.files { assert t.files[id := File(owner, folder)] - {id} == t.files; }
  }

  // ----- ancestors -----

  lemma {:induction false} RootWithinGrows(m: Folders, id: Id, n: nat, k: nat)
    requires RootWithin(m, id, n) && n <= k
    ensures RootWithin(m, id, k)
    decreases n
  {
    if m[id].parent.Some? {
      RootWithinGrows(m, m[id].parent.value, n - 1, k - 1);
    }
  }

  /** Within a folder's own depth all of its ancestors are seen. */
  lemma {:induction false} DepthBoundsAncestors(m: Folders, a: Id, x: Id, n: nat, k: nat)
    requires RootWithin(m, x, n) && AtOrAbove(m, a, x, k)
    ensures AtOrAbove(m, a, x, n)
    decreases k
  {
    if a != x {
      DepthBoundsAncestors(m, a, m[x].parent.value, n - 1, k - 1);
    }
  }

  lemma {:induction false} WalkMeaning(m: Folders, folder: Id, cur: Id, k: nat)
    requires Forest(m) && cur in m && cur != folder
    ensures Walk(m, folder, cur, k) == Done <==>
              k > 0 && RootWithin(m, cur, k - 1) && !AtOrAbove(m, folder, cur, k - 1)
    ensures Walk(m, folder, cur, k) == Done || Walk(m, folder, cur, k) == FolderCycle
    decreases k
  {
    if k > 0 && m[cur].parent.Some? && m[cur].parent.value != folder {
      WalkMeaning(m, folder, m[cur].parent.value, k - 1);
    }
  }

  /** A move under an owned folder is accepted exactly when the new parent is not the folder nor inside it and has at
      most 999 proper ancestors; otherwise it is refused as a cycle, even when there is none but the tree is too deep. */
  lemma MoveAcceptedExactly(t: Tree, owner: Actor, id: Id, parent: Id)
    requires Valid(t) && OwnedFolder(t.folders, owner, id) && OwnedFolder(t.folders, owner, parent)
    ensures var s := Apply(t, MoveFolder(owner, id, Some(parent))).1;
            && (s == Done <==> !Inside(t.folders, parent, id) && RootWithin(t.folders, parent, 999))
            && (s == Done || s == FolderCycle)
  {
    var m := t.folders;
    if parent == id {
      assert AtOrAbove(m, id, parent, 0);
    } else {
      WalkMeaning(m, id, parent, MAX_FOLDER_DEPTH);
      if RootWithin(m, parent, 999) && Inside(m, parent, id) {
        var k: nat :| AtOrAbove(m, id, parent, k);
        DepthBoundsAncestors(m, id, parent, 999, k);
      }
    }
  }

  // ----- the forest is kept -----

  lemma {:induction false} ChainAvoids(m: Folders, id: Id, f: Folder, x: Id, n: nat)
    requires RootWithin(m, x, n) && !AtOrAbove(m, id, x, n)
    ensures RootWithin(m[id := f], x, n)
    decreases n
  {
    if m[x].parent.Some? {
      ChainAvoids(m, id, f, m[x].parent.value, n - 1);
    }
  }

  lemma {:induction false} MovedChain(m: Folders, id: Id, f: Folder, d: nat, x: Id, n: nat)
    requires RootWithin(m, x, n) && RootWithin(m[id := f], id, d)
    ensures RootWithin(m[id := f], x, n + d)
    decreases n
  {
    if x == id {
      RootWithinGrows(m[id := f], id, d, n + d);
    } else if m[x].parent.Some? {
      MovedChain(m, id, f, d, m[x].parent.value, n - 1);
    }
  }

  lemma MoveKeepsForest(m: Folders, owner: Actor, id: Id, parent: Option<Id>)
    requires Forest(m) && MoveStatus(m, owner, id, parent) == Done
    ensures Forest(m[id := m[id].(parent := parent)])
  {
    var f := m[id].(parent := parent);
    var m' := m[id := f];
    var d := 0;
    if parent.Some? {
      WalkMeaning(m, id, parent.value, MAX_FOLDER_DEPTH);
      ChainAvoids(m, id, f, parent.value, 999);
      d := 1000;
    }
    assert RootWithin(m', id, d);
    forall x | x in m' ensures exists n: nat :: RootWithin(m', x, n) {
      if x != id {
        var n: nat :| RootWithin(m, x, n);
        MovedChain(m, id, f, d, x, n);
      }
    }
  }

  lemma CreateKeepsForest(m: Folders, owner: Actor, id: Id, parent: Option<Id>)
    requires Forest(m) && id !in m && OwnedTarget(m, owner, parent)
    ensures Forest(m[id := Folder(owner, parent)])
  {
    var m' := m[id := Folder(owner, parent)];
    forall x | x in m ensures exists n: nat :: RootWithin(m', x, n) {
      var n: nat :| RootWithin(m, x, n);
      MissingAbove(m, id, x, n);
      ChainAvoids(m, id, Folder(owner, parent), x, n);
    }
    if parent.Some? {
      var n: nat :| RootWithin(m', parent.value, n);
      assert RootWithin(m', id, n + 1);
    } else {
      assert RootWithin(m', id, 0);
    }
  }

  lemma {:induction false} MissingAbove(m: Folders, a: Id, x: Id, n: nat)
    requires a !in m && RootWithin(m, x, n)
    ensures !AtOrAbove(m, a, x, n)
    decreases n
  {
    if m[x].parent.Some? {
      MissingAbove(m, a, m[x].parent.value, n - 1);
    }
  }

  lemma {:induction false} LeafRemoved(m: Folders, id: Id, x: Id, n: nat)
    requires RootWithin(m, x, n) && x != id && forall f :: f in m ==> m[f].parent != Some(id)
    ensures RootWithin(m - {id}, x, n)
    decreases n
  {
    if m[x].parent.Some? {
      LeafRemoved(m, id, m[x].parent.value, n - 1);
    }
  }

  lemma DeleteKeepsForest(m: Folders, id: Id)
    requires Forest(m) && forall f :: f in m ==> m[f].parent != Some(id)
    ensures Forest(m - {id})
  {
    forall x | x in m - {id} ensures exists n: nat :: RootWithin(m - {id}, x, n) {
      var n: nat :| RootWithin(m, x, n);
      LeafRemoved(m, id, x, n);
    }
  }

  lemma ApplyKeepsValid(t: Tree, op: Op)
    requires Valid(t)
    ensures Valid(Apply(t, op).0)
  {
    if Apply(t, op).1 == Done {
      match op
      case CreateFolder(owner, id, parent) => CreateKeepsForest(t.folders, owner, id, parent);
      case MoveFolder(owner, id, parent) => MoveKeepsForest(t.folders, owner, id, parent);
      case DeleteFolder(_, id) => DeleteKeepsForest(t.folders, id);
      case _ =>
    }
  }

  function ApplyAll(t: Tree, ops: seq<Op>): Tree
    decreases |ops|
  {
    if ops == [] then t else ApplyAll(Apply(t, ops[0]).0, ops[1..])
  }

  /** For every sequence of operations by any actors: the folders stay a forest whose parents exist and share their
      children's owner, no folder is inside itself through its parent, and no file points at a missing folder. */
  lemma {:induction false} TreeStaysForest(t: Tree, ops: seq<Op>)
    requires Valid(t)
    ensures var t' := ApplyAll(t, ops);
            && Valid(t')
            && (forall id :: id in t'.folders && t'.folders[id].parent.Some? ==>
                  !Inside(t'.folders, t'.folders[id].parent.value, id))
    decreases |ops|
  {
    if ops == [] {
      forall id | id in t.folders && t.folders[id].parent.Some?
        ensures !Inside(t.folders, t.folders[id].parent.value, id)
      {
        NeverInsideItself(t.folders, id);
      }
    } else {
      ApplyKeepsValid(t, ops[0]);
      TreeStaysForest(Apply(t, ops[0]).0, ops[1..]);
    }
  }

  lemma NeverInsideItself(m: Folders, id: Id)
    requires Forest(m) && id in m && m[id].parent.Some?
    ensures !Inside(m, m[id].parent.value, id)
  {
    if Inside(m, m[id].parent.value, id) {
      var k: nat :| AtOrAbove(m, id, m[id].parent.value, k);
      var n: nat :| RootWithin(m, id, n);
      LoopShrinks(m, id, m[id].parent.value, k, n - 1);
    }
  }

  /** A loop through `id` would bring its root ever closer. */
  lemma {:induction false} LoopShrinks(m: Folders, id: Id, x: Id, k: nat, n: int)
    requires id in m && m[id].parent.Some?
    requires n >= 0 && RootWithin(m, x, n) && AtOrAbove(m, id, m[id].parent.value, k) && AtOrAbove(m, id, x, k)
    ensures false
    decreases n, k
  {
    if x == id {
      LoopAgain(m, id, k, n);
      LoopShrinks(m, id, m[id].parent.value, k, n - 1);
    } else {
      Weaken(m, id, m[x].parent.value, k - 1, k);
      LoopShrinks(m, id, m[x].parent.value, k, n - 1);
    }
  }

  lemma LoopAgain(m: Folders, id: Id, k: nat, n: int)
    requires id in m && m[id].parent.Some? && n >= 0 && RootWithin(m, id, n)
    ensures n > 0 && RootWithin(m, m[id].parent.value, n - 1)
  {
  }

  lemma {:induction false} Weaken(m: Folders, a: Id, x: Id, j: nat, k: nat)
    requires AtOrAbove(m, a, x, j) && j <= k
    ensures AtOrAbove(m, a, x, k)
    decreases j
  {
    if a != x {
      Weaken(m, a, m[x].parent.value, j - 1, k - 1);
    }
  }
}
