// The undo history of config.py: the undo fields set up at 341-344 and
// save_undo, clear_undo, redo and undo (605-645).

module Undo {
  import opened Support

  const UNDO_INDEX_MAX := 5

  /** A copy of the canvas with the palette it was saved with. */
  datatype Snapshot = Snapshot(pixels: seq<seq<int>>, pal: seq<Color>)

  /** The history list and index a save_undo that is not suppressed leaves:
    * the index moves up one place, or stays at UNDO_INDEX_MAX while the
    * oldest snapshot is dropped; everything after it is discarded and the
    * canvas is stored at it. */
  function Saved(images: seq<Snapshot>, index: int, canvas: Snapshot): (seq<Snapshot>, int)
    requires -1 <= index < |images|
  {
    if index + 1 > UNDO_INDEX_MAX then (images[1..UNDO_INDEX_MAX + 1] + [canvas], UNDO_INDEX_MAX)
    else (images[..index + 1] + [canvas], index + 1)
  }

  /** After a save the index is the last place of the list and at most
    * UNDO_INDEX_MAX, the canvas sits there, and below it are the snapshots
    * up to the old index, shifted down one place when the oldest was
    * dropped; the snapshots after the old index are gone. */
  lemma {:induction false} SavedShape(images: seq<Snapshot>, index: int, canvas: Snapshot)
    requires -1 <= index < |images|
    ensures var (imgs, i) := Saved(images, index, canvas);
            0 <= i == |imgs| - 1 <= UNDO_INDEX_MAX && imgs[i] == canvas &&
            (index < UNDO_INDEX_MAX ==> i == index + 1 && forall j | 0 <= j < i :: imgs[j] == images[j]) &&
            (index >= UNDO_INDEX_MAX ==> i == UNDO_INDEX_MAX && forall j | 0 <= j < i :: imgs[j] == images[j + 1])
  {
  }

  /** The states the history is in once clear_undo has run: a non-empty
    * list of at most UNDO_INDEX_MAX + 1 snapshots and an index into it. */
  predicate ValidHistory(images: seq<Snapshot>, index: int)
  {
    0 <= index < |images| <= UNDO_INDEX_MAX + 1
  }

  /** Saving keeps the history valid, and leaves it valid even from the
    * empty list with index -1 that the program starts with. */
  lemma {:induction false} SavedValid(images: seq<Snapshot>, index: int, canvas: Snapshot)
    requires ValidHistory(images, index) || (images == [] && index == -1)
    ensures var (imgs, i) := Saved(images, index, canvas);
            ValidHistory(imgs, i) && i == |imgs| - 1
  {
  }

  /** The index undo moves to: one down, but not below 0. */
  function UndoIndex(index: int): int
  {
    if index - 1 < 0 then 0 else index - 1
  }

  /** The index redo moves to: one up, but not past the last snapshot. */
  function RedoIndex(index: int, n: int): int
  {
    if index + 1 > n - 1 then n - 1 else index + 1
  }

  /** Both moves stay inside a valid history and move by at most one. */
  lemma {:induction false} MovesStay(index: int, n: int)
    requires 0 <= index < n
    ensures 0 <= UndoIndex(index) < n && 0 <= RedoIndex(index, n) < n
    ensures UndoIndex(index) == index - 1 || (index == 0 && UndoIndex(index) == 0)
    ensures RedoIndex(index, n) == index + 1 || (index == n - 1 && RedoIndex(index, n) == n - 1)
  {
  }

  /** Redo undoes an undo that moved, and undo undoes a redo that moved. */
  lemma {:induction false} MovesInverse(index: int, n: int)
    requires 0 <= index < n
    ensures 0 < index ==> RedoIndex(UndoIndex(index), n) == index
    ensures index < n - 1 ==> UndoIndex(RedoIndex(index, n)) == index
  {
  }

  class History {
    var images: seq<Snapshot>
    var index: int
    var suppress: bool

    /** The undo fields as the program sets them up: no snapshots, index -1,
      * saving not suppressed. */
    constructor ()
      ensures images == [] && index == -1 && !suppress
    {
      images := [];
      index := -1;
      suppress := false;
    }

    /** save_undo: a suppressed call only clears the flag; otherwise the
      * canvas is pushed as Saved describes. */
    method SaveUndo(canvas: Snapshot)
      requires -1 <= index < |images|
      modifies this
      ensures !suppress
      ensures old(suppress) ==> images == old(images) && index == old(index)
      ensures !old(suppress) ==> (images, index) == Saved(old(images), old(index), canvas)
    {
      if suppress {
        suppress := false;
        return;
      }
      index := index + 1;
      if index > UNDO_INDEX_MAX {
        index := UNDO_INDEX_MAX;
        images := images[1..];
      }
      ghost var base := images;
      assert base[..index] == if index == UNDO_INDEX_MAX && old(index) + 1 > UNDO_INDEX_MAX
                              then old(images)[1..UNDO_INDEX_MAX + 1] else old(images)[..index];
      if index > |images| - 1 {
        images := images + [canvas];
      }
      ghost var full, top := images, index;
      assert full[..index] == base[..index];
      while |images| - 1 > index
        invariant index == top && !suppress
        invariant 0 <= index < |images| <= |full| && images == full[..|images|]
        decreases |images|
      {
        images := images[..|images| - 1];
      }
      images := images[index := canvas];
      assert images == full[..index] + [canvas];
    }

    /** clear_undo: the history restarts with the canvas as its only
      * snapshot, and the next save is suppressed. */
    method ClearUndo(canvas: Snapshot)
      modifies this
      ensures images == [canvas] && index == 0 && suppress
    {
      suppress := false;
      images := [];
      index := -1;
      SaveUndo(canvas);
      suppress := true;
    }

    /** redo: the index moves up one place, clamped to the last snapshot,
      * and that snapshot is put back on the canvas. */
    method Redo() returns (shown: Snapshot)
      requires |images| > 0 && index >= -1
      modifies this
      ensures images == old(images) && suppress == old(suppress)
      ensures index == RedoIndex(old(index), |images|) && shown == images[index]
    {
      index := index + 1;
      if index > |images| - 1 {
        index := |images| - 1;
      }
      shown := images[index];
    }

    /** undo: the index moves down one place, clamped to 0, and that
      * snapshot is put back on the canvas. */
    method Undo() returns (shown: Snapshot)
      requires |images| > 0 && index <= |images|
      modifies this
      ensures images == old(images) && suppress == old(suppress)
      ensures index == UndoIndex(old(index)) && shown == images[index]
    {
      index := index - 1;
      if index < 0 {
        index := 0;
      }
      shown := images[index];
    }
  }
}
