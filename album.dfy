/** The session state of the album page and the files behind it: the listed
    image paths, the rotation and order maps kept in the session, the two JSON
    sidecar files, and the entries of the album directory. Each method is one
    of the page's actions on that state. */
module AlbumStore {
  import opened Collections
  import opened Names
  import opened Listing
  import opened OrderMap
  import opened Rotation

  /** `os.path.exists(p)` for a path into the directory `dir` holding `files`. */
  predicate OnDisk(dir: string, files: seq<string>, p: string) {
    EntryOf(dir, p).Some? && EntryOf(dir, p).value in files
  }

  /** The paths a batch of uploaded file names is saved under. */
  ghost function UploadPaths(dir: string, names: seq<string>): set<string> {
    set n | n in names :: Join(dir, n)
  }

  /** Removing an entry from the directory takes its path out of the listing. */
  lemma RemovedEntryNotListed(dir: string, files: seq<string>, name: string, order: Ranks)
    requires Distinct(files)
    ensures Join(dir, name) !in Listed(dir, RemoveFirst(files, name), order)
  {
    RemoveFirstDistinct(files, name);
    ListedSpec(dir, RemoveFirst(files, name), order);
  }

  /** After a deletion the path is neither on disk nor listed, and if it was
      removed from a list without duplicates it is gone from the list. */
  lemma DeletedNotListed(dir: string, before: seq<string>, after: seq<string>, shown: seq<string>, shownAfter: seq<string>,
                         p: string, deleted: bool, order: Ranks)
    requires Distinct(before)
    requires after == if OnDisk(dir, before, p) then RemoveFirst(before, EntryOf(dir, p).value) else before
    requires shownAfter == if deleted then RemoveFirst(shown, p) else shown
    ensures Distinct(after) && !OnDisk(dir, after, p) && p !in Listed(dir, after, order)
    ensures deleted && Distinct(shown) ==> p !in shownAfter
  {
    if OnDisk(dir, before, p) {
      var name := EntryOf(dir, p).value;
      RemoveFirstDistinct(before, name);
      RemovedEntryNotListed(dir, before, name, order);
    } else {
      ListedSpec(dir, before, order);
    }
    if deleted && Distinct(shown) {
      RemoveFirstDistinct(shown, p);
    }
  }

  /** If the list was what the page listed before a swap, the next listing,
      made from the rank map the move writes, shows the swapped list. */
  lemma ShownAfterMove(dir: string, files: seq<string>, before: seq<string>, i: nat, j: nat, order: Ranks, orderFile: Ranks)
    requires Distinct(files) && i < |before| && j < |before|
    requires before == Listed(dir, files, orderFile)
    ensures Listed(dir, files, Reindexed(order, Swapped(before, i, j))) == Swapped(before, i, j)
  {
    ListedSpec(dir, files, orderFile);
    SwappedDistinct(before, i, j);
    ListedAfterReindex(dir, files, order, Swapped(before, i, j));
  }

  class Album {
    /** `st.session_state.upload_dir`, the album directory. */
    const dir: string
    /** The entries of the album directory, in `os.listdir` order. */
    var files: seq<string>
    /** `st.session_state.images`: the paths the page shows, in display order. */
    var images: seq<string>
    /** `st.session_state.image_rotations`: path to angle. */
    var rotations: map<string, int>
    /** `st.session_state.image_order`: path to rank. */
    var order: Ranks
    /** The contents of `rotations.json`. */
    var rotationFile: map<string, int>
    /** The contents of `image_order.json`. */
    var orderFile: Ranks

    /** A directory never holds two entries of the same name, and the page
        never shows a path twice: the list is set to a listing, and swaps and
        removals keep it free of duplicates. */
    ghost predicate Valid()
      reads this
    {
      Distinct(files) && Distinct(images)
    }

    /** A new session over an album directory and its sidecar files: the
        session list and both session maps start empty. */
    constructor (files: seq<string>, rotationFile: map<string, int>, orderFile: Ranks)
      requires Distinct(files)
      ensures Valid() && dir == AlbumDir
      ensures this.files == files && this.rotationFile == rotationFile && this.orderFile == orderFile
      ensures images == [] && rotations == map[] && order == map[]
    {
      dir := AlbumDir;
      this.files := files;
      this.rotationFile := rotationFile;
      this.orderFile := orderFile;
      images := [];
      rotations := map[];
      order := map[];
    }

    /** The start of every page run: the session rotation map is read back from
        `rotations.json` and the list is listed afresh. The session order map
        is not read back. */
    method Reload()
      requires Valid()
      modifies this`rotations, this`images
      ensures Valid()
      ensures rotations == rotationFile
      ensures images == Listed(dir, files, orderFile)
      ensures Distinct(images)
    {
      rotations := rotationFile;
      images := Listed(dir, files, orderFile);
      ListedSpec(dir, files, orderFile);
    }

    /** The upload loop: each uploaded file is written into the directory, and
        its path gets rotation 0 unless it already has an angle. */
    method StoreUploads(names: seq<string>)
      requires Distinct(files)
      modifies this`files, this`rotations
      ensures Distinct(files)
      ensures forall n :: n in files <==> n in old(files) || n in names
      ensures |old(files)| <= |files| && files[..|old(files)|] == old(files)
      ensures rotations.Keys == old(rotations).Keys + UploadPaths(dir, names)
      ensures forall p :: p in old(rotations) ==> rotations[p] == old(rotations)[p]
      ensures forall p :: p in rotations && p !in old(rotations) ==> rotations[p] == 0
    {
      var i := 0;
      while i < |names|
        invariant 0 <= i <= |names|
        invariant Distinct(files)
        invariant forall n :: n in files <==> n in old(files) || n in names[..i]
        invariant |old(files)| <= |files| && files[..|old(files)|] == old(files)
        invariant rotations.Keys == old(rotations).Keys + UploadPaths(dir, names[..i])
        invariant forall p :: p in old(rotations) ==> rotations[p] == old(rotations)[p]
        invariant forall p :: p in rotations && p !in old(rotations) ==> rotations[p] == 0
      {
        var name := names[i];
        var path := Join(dir, name);
        // the file is created, or overwritten in place when the name exists
        if name !in files {
          files := files + [name];
        }
        if path !in rotations {
          rotations := rotations[path := 0];
        }
        assert names[..i + 1] == names[..i] + [name];
        assert UploadPaths(dir, names[..i + 1]) == UploadPaths(dir, names[..i]) + {path};
        i := i + 1;
      }
      assert names[..i] == names;
    }

    /** "Save images": the uploads are stored, then the rotation file is
        written and the album listed again. */
    method SaveUploads(names: seq<string>)
      requires Valid()
      modifies this`files, this`rotations, this`rotationFile, this`images
      ensures Valid()
      ensures forall n :: n in files <==> n in old(files) || n in names
      ensures |old(files)| <= |files| && files[..|old(files)|] == old(files)
      ensures rotations.Keys == old(rotations).Keys + UploadPaths(dir, names)
      ensures forall p :: p in old(rotations) ==> rotations[p] == old(rotations)[p]
      ensures forall p :: p in rotations && p !in old(rotations) ==> rotations[p] == 0
      ensures rotationFile == rotations
      ensures images == Listed(dir, files, orderFile)
      ensures forall n :: n in names && IsImageName(n) ==> Join(dir, n) in images
    {
      StoreUploads(names);
      rotationFile := rotations;
      images := Listed(dir, files, orderFile);
      ListedSpec(dir, files, orderFile);
    }

    /** "↺": a quarter turn to the left of the shown angle, saved at once. */
    method RotateLeft(p: string)
      modifies this`rotations, this`rotationFile
      ensures rotations == old(rotations)[p := TurnedLeft(CurrentAngle(old(rotations), p))]
      ensures rotationFile == rotations
    {
      var current := CurrentAngle(rotations, p);
      rotations := rotations[p := TurnedLeft(current)];
      rotationFile := rotations;
    }

    /** "↻": a quarter turn to the right of the shown angle, saved at once. */
    method RotateRight(p: string)
      modifies this`rotations, this`rotationFile
      ensures rotations == old(rotations)[p := TurnedRight(CurrentAngle(old(rotations), p))]
      ensures rotationFile == rotations
    {
      var current := CurrentAngle(rotations, p);
      rotations := rotations[p := TurnedRight(current)];
      rotationFile := rotations;
    }

    /** The loop shared by both moves: every listed path is ranked by its
        position in the list, then the order file is written. */
    method RankByPosition()
      modifies this`order, this`orderFile
      ensures order == Reindexed(old(order), images)
      ensures orderFile == order
    {
      var i := 0;
      while i < |images|
        invariant 0 <= i <= |images|
        invariant order == Reindexed(old(order), images[..i])
      {
        assert images[..i + 1][..i] == images[..i];
        order := order[images[i] := i];
        i := i + 1;
      }
      assert images[..i] == images;
      orderFile := order;
    }

    /** The body of both moves once the neighbour is known: the two paths
        trade places and every listed path is ranked by its new position. */
    method SwapAndRank(i: nat, j: nat)
      requires Valid() && i < |images| && j < |images|
      modifies this`images, this`order, this`orderFile
      ensures Valid()
      ensures images == Swapped(old(images), i, j)
      ensures order == Reindexed(old(order), images) && orderFile == order
      ensures old(images) == Listed(dir, files, old(orderFile)) ==>
        images == Listed(dir, files, orderFile)
    {
      SwappedDistinct(images, i, j);
      images := Swapped(images, i, j);
      RankByPosition();
      if old(images) == Listed(dir, files, old(orderFile)) {
        ShownAfterMove(dir, files, old(images), i, j, old(order), old(orderFile));
      }
    }

    /** "⬆️": the path trades places with the one before it; at the top of the
        list nothing changes and nothing is saved. `ok` is false when the path
        is not in the list, where `list.index` raises before any change. */
    method MoveUp(p: string) returns (ok: bool)
      requires Valid()
      modifies this`images, this`order, this`orderFile
      ensures Valid()
      ensures ok == (p in old(images))
      ensures !ok || IndexOf(old(images), p) == 0 ==>
        images == old(images) && order == old(order) && orderFile == old(orderFile)
      ensures ok && IndexOf(old(images), p) > 0 ==>
        var idx := IndexOf(old(images), p);
        && images == Swapped(old(images), idx, idx - 1)
        && order == Reindexed(old(order), images)
        && orderFile == order
      ensures old(images) == Listed(dir, files, old(orderFile)) ==>
        images == Listed(dir, files, orderFile)
    {
      if p !in images {
        return false;
      }
      ok := true;
      var idx := IndexOf(images, p);
      if idx > 0 {
        SwapAndRank(idx, idx - 1);
      }
    }

    /** "⬇️": the path trades places with the one after it; at the bottom of
        the list nothing changes and nothing is saved. `ok` is false when the
        path is not in the list, where `list.index` raises before any change. */
    method MoveDown(p: string) returns (ok: bool)
      requires Valid()
      modifies this`images, this`order, this`orderFile
      ensures Valid()
      ensures ok == (p in old(images))
      ensures !ok || IndexOf(old(images), p) == |old(images)| - 1 ==>
        images == old(images) && order == old(order) && orderFile == old(orderFile)
      ensures ok && IndexOf(old(images), p) < |old(images)| - 1 ==>
        var idx := IndexOf(old(images), p);
        && images == Swapped(old(images), idx, idx + 1)
        && order == Reindexed(old(order), images)
        && orderFile == order
      ensures old(images) == Listed(dir, files, old(orderFile)) ==>
        images == Listed(dir, files, orderFile)
    {
      if p !in images {
        return false;
      }
      ok := true;
      var idx := IndexOf(images, p);
      if idx < |images| - 1 {
        SwapAndRank(idx, idx + 1);
      }
    }

    /** The first half of a deletion: the path leaves both session maps, and
        each sidecar file is rewritten only if the path was in its map. */
    method Forget(p: string)
      modifies this`rotations, this`order, this`rotationFile, this`orderFile
      ensures rotations == old(rotations) - {p} && order == old(order) - {p}
      ensures rotationFile == if p in old(rotations) then rotations else old(rotationFile)
      ensures orderFile == if p in old(order) then order else old(orderFile)
    {
      if p in rotations {
        rotations := rotations - {p};
        rotationFile := rotations;
      }
      if p in order {
        order := order - {p};
        orderFile := order;
      }
    }

    /** `os.remove(p)` when `os.path.exists(p)`; `existed` says which. */
    method RemoveFile(p: string) returns (existed: bool)
      requires Valid()
      modifies this`files
      ensures Valid()
      ensures existed == OnDisk(dir, old(files), p)
      ensures existed ==> files == RemoveFirst(old(files), EntryOf(dir, p).value)
      ensures !existed ==> files == old(files)
    {
      existed := OnDisk(dir, files, p);
      if existed {
        var name := EntryOf(dir, p).value;
        RemoveFirstDistinct(files, name);
        files := RemoveFirst(files, name);
      }
    }

    /** "🗑️": the path leaves both maps and the file is removed; when it was
        on disk the deletion is then committed and pushed. A failing commit or
        push returns false with the removals already done and the path still
        in the list; otherwise the path's first occurrence leaves the list and
        the result is true, also when there was no file to remove. */
    method Delete(p: string, gitSucceeds: bool) returns (deleted: bool)
      requires Valid()
      modifies this`rotations, this`order, this`rotationFile, this`orderFile, this`files, this`images
      ensures Valid()
      ensures rotations == old(rotations) - {p} && order == old(order) - {p}
      ensures rotationFile == if p in old(rotations) then rotations else old(rotationFile)
      ensures orderFile == if p in old(order) then order else old(orderFile)
      ensures OnDisk(dir, old(files), p) ==> files == RemoveFirst(old(files), EntryOf(dir, p).value)
      ensures !OnDisk(dir, old(files), p) ==> files == old(files)
      ensures deleted == (!OnDisk(dir, old(files), p) || gitSucceeds)
      ensures images == if deleted then RemoveFirst(old(images), p) else old(images)
      ensures !OnDisk(dir, files, p) && p !in Listed(dir, files, orderFile)
      ensures deleted ==> p !in images
    {
      Forget(p);
      var existed := RemoveFile(p);
      if existed && !gitSucceeds {
        // the commit or push failed: reported, and the deletion stops here
        deleted := false;
      } else {
        RemoveFirstDistinct(images, p);
        images := RemoveFirst(images, p);
        deleted := true;
      }
      DeletedNotListed(dir, old(files), files, old(images), images, p, deleted, orderFile);
    }
  }

  /** A deletion made before any move in a new session: the session order map
      starts empty and is never read from `image_order.json`, so the order
      file keeps the deleted path's rank, while the rotation file, read back
      at the start of the page run, loses the path. */
  method DeleteInNewSession(files: seq<string>, rotationFile: map<string, int>, orderFile: Ranks,
                            p: string, gitSucceeds: bool)
    returns (staleRank: Option<int>, rotationKept: bool)
    requires Distinct(files)
    ensures staleRank == Rank(orderFile, p)
    ensures !rotationKept
  {
    var album := new Album(files, rotationFile, orderFile);
    album.Reload();
    var _ := album.Delete(p, gitSucceeds);
    staleRank := Rank(album.orderFile, p);
    rotationKept := p in album.rotationFile;
  }
}
