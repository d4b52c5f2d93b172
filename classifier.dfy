/**
 * How a change reaches the mirror's revision table and its callback
 * (`_handle_change`, `_old_or_delete`), and how `load_initial_data` folds a walk
 * of the namespace into them.
 */
module Classifier {
  import opened Paths
  import opened Doozer

  /** One invocation of the user callback: `callback(value)` or `callback(value, path=key, destroy=True)`. */
  datatype Notice = Updated(value: string) | Destroyed(value: string, key: string)

  /** The part of the mirror a change can touch: key -> last seen revision, and the callbacks fired so far. */
  datatype LocalView = LocalView(revisions: map<string, int>, notices: seq<Notice>)

  /** The change carries the revision already recorded for its key: the mirror has seen it, typically its own write. */
  predicate IsEcho(revisions: map<string, int>, change: Response)
  {
    var key := KeyPath(change.path);
    key in revisions && revisions[key] == change.rev
  }

  /** The change deletes a key the mirror still tracks at another revision: a peer's delete. */
  predicate IsForeignDelete(revisions: map<string, int>, change: Response)
  {
    var key := KeyPath(change.path);
    key in revisions && revisions[key] != change.rev && change.flags == DelFlag
  }

  /** The effect of `_handle_change(change)` on the revision table and the callback log. */
  function Absorb(v: LocalView, change: Response): (w: LocalView)
    // a change already seen leaves everything as it was, and nothing else does
    ensures w == v <==> IsEcho(v.revisions, change)
    // only the change's own key is touched
    ensures forall k :: k != KeyPath(change.path) ==>
      (k in w.revisions <==> k in v.revisions) && (k in v.revisions ==> w.revisions[k] == v.revisions[k])
    // the key is dropped exactly on a foreign delete, and otherwise ends at the change's revision
    ensures KeyPath(change.path) in w.revisions <==> !IsForeignDelete(v.revisions, change)
    ensures KeyPath(change.path) in w.revisions ==> w.revisions[KeyPath(change.path)] == change.rev
    // a foreign delete fires the callback once, with destroy set
    ensures IsForeignDelete(v.revisions, change) ==>
      w.notices == v.notices + [Destroyed(change.value, KeyPath(change.path))]
    // any other new change fires the callback only when it is flagged as a set
    ensures !IsEcho(v.revisions, change) && !IsForeignDelete(v.revisions, change) ==>
      w.notices == v.notices + (if change.flags == SetFlag then [Updated(change.value)] else [])
  {
    var key := KeyPath(change.path);
    if key in v.revisions && v.revisions[key] == change.rev then v
    else if key in v.revisions && change.flags == DelFlag then
      LocalView(v.revisions - {key}, v.notices + [Destroyed(change.value, key)])
    else
      LocalView(v.revisions[key := change.rev],
                if change.flags == SetFlag then v.notices + [Updated(change.value)] else v.notices)
  }

  /** A change delivered a second time is ignored, unless the first delivery was a foreign delete. */
  lemma RedeliveryIgnored(v: LocalView, change: Response)
    requires !IsForeignDelete(v.revisions, change)
    ensures Absorb(Absorb(v, change), change) == Absorb(v, change)
  {
  }

  /** A foreign delete delivered twice puts its key back, at the delete's revision, and fires nothing more. */
  lemma RedeliveredDeleteRetracks(v: LocalView, change: Response)
    requires IsForeignDelete(v.revisions, change)
    ensures Absorb(Absorb(v, change), change).revisions == v.revisions[KeyPath(change.path) := change.rev]
    ensures Absorb(Absorb(v, change), change).notices == Absorb(v, change).notices
  {
  }

  /** One walked file: the entry `walk` listed, and what `get` then returned for its path. */
  datatype Walked = Walked(file: Response, got: Response)

  /** One pass of the load loop: handle the fetched change, then record the walked revision. */
  function LoadOne(v: LocalView, w: Walked): LocalView
  {
    var a := Absorb(v, w.got);
    LocalView(a.revisions[KeyPath(w.file.path) := w.file.rev], a.notices)
  }

  /** The revision table and callback log after `load_initial_data` has gone through `walk`. */
  function Loaded(v: LocalView, walk: seq<Walked>): (w: LocalView)
    ensures v.notices <= w.notices && |w.notices| <= |v.notices| + |walk|
  {
    if walk == [] then v
    else
      var u := Loaded(v, walk[..|walk| - 1]);
      LoadOne(u, walk[|walk| - 1])
  }

  /** The walked file or the change fetched for it has `key` as its key. */
  predicate Names(w: Walked, key: string)
  {
    KeyPath(w.file.path) == key || KeyPath(w.got.path) == key
  }

  /** Loading one more file is one more pass over the table loaded so far. */
  lemma LoadedExtend(v: LocalView, walk: seq<Walked>, i: nat)
    requires i < |walk|
    ensures Loaded(v, walk[..i + 1]) == LoadOne(Loaded(v, walk[..i]), walk[i])
  {
    assert walk[..i + 1][..i] == walk[..i];
  }

  /** A pass for a file that does not name `key` leaves `key`'s entry as it was. */
  lemma LoadOneKeeps(v: LocalView, w: Walked, key: string)
    requires !Names(w, key)
    ensures key in LoadOne(v, w).revisions <==> key in v.revisions
    ensures key in v.revisions ==> LoadOne(v, w).revisions[key] == v.revisions[key]
  {
  }

  /** No walked file and no fetched change names `key`: a reload keeps its entry as it was, even if the key is gone from the backend. */
  lemma {:induction false} LoadKeepsUntouchedKey(v: LocalView, walk: seq<Walked>, key: string)
    requires forall i :: 0 <= i < |walk| ==> !Names(walk[i], key)
    ensures key in Loaded(v, walk).revisions <==> key in v.revisions
    ensures key in v.revisions ==> Loaded(v, walk).revisions[key] == v.revisions[key]
  {
    if walk != [] {
      var front, last := walk[..|walk| - 1], walk[|walk| - 1];
      forall j | 0 <= j < |front| ensures !Names(front[j], key) {
        assert front[j] == walk[j];
      }
      LoadKeepsUntouchedKey(v, front, key);
      LoadOneKeeps(Loaded(v, front), last, key);
    }
  }

  /** After the load, a walked file's key holds that file's revision, unless a later file or fetched change names the same key. */
  lemma {:induction false} LoadTracksLastFile(v: LocalView, walk: seq<Walked>, i: nat)
    requires i < |walk|
    requires forall j :: i < j < |walk| ==> !Names(walk[j], KeyPath(walk[i].file.path))
    ensures KeyPath(walk[i].file.path) in Loaded(v, walk).revisions
    ensures Loaded(v, walk).revisions[KeyPath(walk[i].file.path)] == walk[i].file.rev
  {
    var key := KeyPath(walk[i].file.path);
    var front, last := walk[..|walk| - 1], walk[|walk| - 1];
    assert Loaded(v, walk) == LoadOne(Loaded(v, front), last);
    if i < |walk| - 1 {
      assert front[i] == walk[i];
      forall j | i < j < |front| ensures !Names(front[j], key) {
        assert front[j] == walk[j];
      }
      LoadTracksLastFile(v, front, i);
      LoadOneKeeps(Loaded(v, front), last, key);
    }
  }
}
