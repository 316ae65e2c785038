# Photo album bookkeeping, modelled in Dafny

The album page (`app.py`) keeps a photo album in one directory, `album/`.
Users upload images, turn them a quarter turn left or right, move them up or
down, and delete them. Beside the images the directory holds two JSON sidecar
files: `rotations.json` maps a path to its angle, and `image_order.json`
maps a path to its rank. The page keeps three values in its session: the
list of shown paths, a rotation map and an order map.

This project models that bookkeeping:

- `Names` models the extension check (`.png`, `.jpg`, `.jpeg`, `.gif`, `.bmp`,
  `.heic`, ignoring case) and `os.path.join` on the album directory.
- `Listing` models `load_images_from_album`. It filters the directory entries
  and then stable-sorts their paths by rank. A path with no rank counts as
  rank infinity (`None`), so it sorts after every ranked path.
- `OrderMap` models the loop that ranks every listed path by its position.
  Its main lemma says that the next listing shows exactly the moved list.
- `Rotation` models the quarter turns `(a ∓ 90) % 360`.
- `AlbumStore.Album` is a class with the page's state as fields: the directory
  entries, the shown list, the two session maps and the contents of the two
  sidecar files. The methods `Reload`, `SaveUploads`, `RotateLeft`,
  `RotateRight`, `MoveUp`, `MoveDown` and `Delete` are the page's actions.
  `StoreUploads`, `RankByPosition`, `SwapAndRank`, `Forget` and `RemoveFile`
  are the steps those actions are built from.

Points where the code behaves differently from what one might expect:

- There is no tiebreak by file name. Paths with equal ranks, and all unranked
  paths, keep the order in which the directory lists them.
- Deleting a path that is no longer on disk returns true. The git step runs
  only when a file was removed.
- The session order map starts empty and is never read from
  `image_order.json` (app.py:238-239). The listing reads the file directly
  (app.py:309). So a delete done before any move in a new session leaves the
  deleted path's rank in the order file (`AlbumStore.DeleteInNewSession`).
  The session rotation map, by contrast, is read back from `rotations.json`
  on every page run (app.py:362).
- In a failed delete, the map and file removals are not undone. The path
  stays in the session list until the next page run lists the directory
  again.

Python's `%` rounds the quotient down. With the positive divisor 360 it gives
the same result as Dafny's Euclidean `%`, so `TurnedLeft` and `TurnedRight`
use it directly.

## Model

| member | source | states |
|---|---|---|
| `Collections.IndexOf` | app.py:284 | the returned position holds the path and no earlier position does (`list.index`) |
| `Collections.RemoveFirst` | app.py:352-353 | a path not in the list leaves it unchanged; otherwise the first occurrence is dropped and every other element keeps its order (each position before it is kept, each one after it moves up by one), and the multiset loses exactly one copy of the path |
| `Collections.RemoveFirstDistinct` | app.py:352-353 | in a list without duplicates, removal leaves no copy of the path, keeps every other path and keeps the list free of duplicates |
| `Collections.Swapped` | app.py:286 | the two positions trade values, every other position is unchanged, and the result is a permutation of the same length |
| `Collections.SwappedDistinct` | app.py:296 | a swap keeps a list free of duplicates |
| `Names.IsImageName` | app.py:305 | the extension test; its properties are stated by `NotImageByLastChar`, `JsonNeverListed`, `UpperCasePngListed` and `IsImageNameIgnoresCase` |
| `Names.NotImageByLastChar` | app.py:305 | a name whose lower-cased last character ends no accepted extension is never listed |
| `Names.JsonNeverListed` | app.py:305 | `rotations.json`, `image_order.json` and every other `.json` name are never listed |
| `Names.UpperCasePngListed` | app.py:305 | `X.PNG`, and any name ending in `.PNG`, is listed: the check ignores case |
| `Names.IsImageNameIgnoresCase` | app.py:305 | a name is accepted exactly when its lower-cased form is |
| `Names.Join` | app.py:306 | `os.path.join` on the album directory; its properties are stated by `JoinInjective` and `EntryOf` |
| `Names.JoinInjective` | app.py:306 | two entries of one directory have the same path only if they are the same entry |
| `Names.EntryOf` | app.py:331 | the entry a path names, when the path lies in the directory, and `None` for every path no entry is joined to |
| `Listing.ImageFiles` | app.py:303-306 | every accepted entry's path is kept; every kept path is an accepted entry's; no duplicates when the directory has none |
| `Listing.ImageFilesAppend` | app.py:304-306 | the filter keeps `os.listdir` order: the paths of two runs of entries are the first run's paths followed by the second run's |
| `Listing.Rank` | app.py:311 | the sort key `order_data.get(x, float('inf'))`, with `None` as infinity; `RankLe` puts it above every rank, and `ListedSpec` states the resulting order |
| `Listing.Insert` | app.py:311 | inserting adds exactly that one path to the multiset |
| `Listing.InsertSorted` | app.py:311 | inserting into a rank-sorted list keeps it sorted |
| `Listing.SortByRank` | app.py:311 | the result is a permutation of the input and is sorted by rank, unranked last |
| `Listing.InsertWithRank` | app.py:311 | inserting a path before the sorted rest puts it first among the paths of its rank |
| `Listing.SortByRankStable` | app.py:311 | for every rank, the sorted list has the paths of that rank in input order (stability) |
| `Listing.Listed` | app.py:302-311 | `load_images_from_album`; its properties are stated by `ListedSpec` and `ImageFilesAppend` |
| `Listing.ListedSpec` | app.py:302-311 | the listing holds exactly the accepted entries' paths, once each; it is sorted by rank with unranked paths after all ranked ones; equal ranks keep directory order |
| `OrderMap.Reindexed` | app.py:288-289 | the ranked keys are the old keys plus every listed path |
| `OrderMap.ReindexedRanks` | app.py:288-289 | with no duplicates, each listed path's rank is its index, and keys not in the list keep their old rank |
| `OrderMap.SortedByPositionIsIdentity` | app.py:309-311 | a rank-sorted permutation of a list whose ranks are its positions is that list |
| `OrderMap.ListedAfterReindex` | app.py:288-290 | after a rearranged listing is written back as ranks, listing the directory again gives that arrangement |
| `Rotation.CurrentAngle` | app.py:427 | `image_rotations.get(p, 0)`; the rotate methods state its use |
| `Rotation.TurnedLeft` | app.py:443 | the new angle lies in [0, 360) and differs from `current - 90` by a multiple of 360 |
| `Rotation.TurnedRight` | app.py:448 | the new angle lies in [0, 360) and differs from `current + 90` by a multiple of 360 |
| `Rotation.LeftRightCancel` | app.py:443-448 | a left turn then a right turn, or a right turn then a left turn, restores any angle in [0, 360) |
| `Rotation.FourTurnsRestore` | app.py:448 | four right turns, or four left turns, restore any angle in [0, 360) |
| `Rotation.QuarterTurnsStayQuarter` | app.py:443-448 | starting from 0, 90, 180 or 270, a turn gives one of those angles again |
| `AlbumStore.OnDisk` | app.py:331 | `os.path.exists` for a path into the album directory; `Album.RemoveFile` and `DeletedNotListed` state its properties |
| `AlbumStore.RemovedEntryNotListed` | app.py:331-332 | once its entry is removed from the directory, a path is no longer listed |
| `AlbumStore.DeletedNotListed` | app.py:330-353 | after a delete the path is not on disk and not listed, and a successful delete leaves no copy in a duplicate-free list |
| `AlbumStore.ShownAfterMove` | app.py:286-290 | when the list was the listing, the listing made with the rewritten ranks shows the swapped list |
| `AlbumStore.DeleteInNewSession` | app.py:326-328 | in a new session, a delete leaves the path's rank in the order file but removes it from the rotation file |
| `AlbumStore.Album.constructor` | app.py:228-239 | a new session starts with an empty list and empty rotation and order maps |
| `AlbumStore.Album.Reload` | app.py:419 | a page run reads the rotation file into the session map (app.py:362) and sets the list to the listing, which has no duplicates |
| `AlbumStore.Album.StoreUploads` | app.py:408-411 | each upload's entry is in the directory and earlier entries keep their place; a new path gets rotation 0; existing angles are kept; no other key is added; the directory stays free of duplicates |
| `AlbumStore.Album.SaveUploads` | app.py:408-413 | each upload's entry is in the directory; a new path gets rotation 0; existing angles are kept; no other key is added; the rotation file equals the map; the list is the new listing, holds every uploaded image and has no duplicates |
| `AlbumStore.Album.RotateLeft` | app.py:442-444 | only the path's angle changes, to a left turn of its current angle (0 when absent), and the rotation file equals the map |
| `AlbumStore.Album.RotateRight` | app.py:447-449 | only the path's angle changes, to a right turn of its current angle (0 when absent), and the rotation file equals the map |
| `AlbumStore.Album.RankByPosition` | app.py:288-290 | the order map becomes the old map with every listed path ranked by its index; the order file equals it |
| `AlbumStore.Album.SwapAndRank` | app.py:286-290 | the list is swapped, the ranks are rewritten, the list stays free of duplicates, and a list that was the listing stays the listing |
| `AlbumStore.Album.MoveUp` | app.py:282-290 | a path not in the list or already first changes nothing; otherwise it swaps with its predecessor and ranks are rewritten; the list stays free of duplicates; a listed list stays the listing |
| `AlbumStore.Album.MoveDown` | app.py:292-300 | a path not in the list or already last changes nothing; otherwise it swaps with its successor and ranks are rewritten; the list stays free of duplicates; a listed list stays the listing |
| `AlbumStore.Album.Forget` | app.py:320-328 | the path leaves both session maps and no other key changes; each sidecar file is rewritten only if the path was in its map |
| `AlbumStore.Album.RemoveFile` | app.py:330-332 | the entry is removed exactly when the path exists on disk |
| `AlbumStore.Album.Delete` | app.py:317-359 | the maps are pruned of the path alone; the result is false only when a file was removed and the git step failed; on success the first occurrence leaves the list and no copy of the path is left in it; afterwards the path is neither on disk nor listed, and the list stays free of duplicates |

## Left out

- Page layout, CSS and HTML, columns, buttons and `st.rerun` (app.py:17-225, 364-506): presentation. The methods stand for the actions those buttons trigger.
- Image decoding, `Image.rotate` and `thumbnail` (app.py:428-433, 478-483): pixel work in an imaging library.
- The QR code and its download button (app.py:378-390): a third-party library call.
- Reading and writing the JSON files, `os.listdir`, `os.makedirs`, `os.remove` and writing upload bytes: each file is a field of `Album`, and saving a map sets its file to the map. I/O errors, and the `except Exception` branch that turns them into a false result (app.py:357-359), are not modelled.
- The git commit and push (app.py:335-349): external processes. Only their outcome is kept, as the `gitSucceeds` parameter.
- Registering the HEIF opener (app.py:14): a library side effect.
- Deleting the whole album (app.py:498-501) and the `album_id` switch to view mode (app.py:243-245): outside the bookkeeping modelled here. Deleting the album empties the list but leaves both session maps as they are.
- `Names.Lower`: folds ASCII letters only. Python's `str.lower` also folds other Unicode letters.
- `Album.StoreUploads`, `Album.SaveUploads`: a newly created file is placed after the existing entries in directory order. The order `os.listdir` really uses depends on the file system. An uploaded name that already exists is overwritten and keeps its place. The uploader's own extension filter is not modelled.
- `Listing.SortByRank`: an insertion sort stands in for Python's `sorted`. Both are stable sorts with the same key, so they give the same result, but that equivalence is not proved here.
- Ranks and angles read from JSON are modelled as integers. A float stored in a sidecar file is not modelled.
- `Album.MoveUp`, `Album.MoveDown`: a path not in the list makes `list.index` raise. The per-image `except Exception` (app.py:466-467) catches it, shows an error and changes nothing, which the model gives as `ok == false`. The error message itself is not modelled. The page only calls the moves with a listed path (app.py:424).
- Two sessions writing the sidecar files at once: concurrency is not modelled.
