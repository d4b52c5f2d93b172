/**
 * `DoozerData`: a dict-like mirror of a doozerd namespace. It keeps key -> last
 * seen revision, a one-bit gate that holds the watch back while a write is in
 * flight, and fires a callback for changes made by others. The doozerd client
 * is not part of this model: each call's reply is a parameter of the method
 * that makes it, and the calls themselves are logged in `sent`.
 */
module Mirror {
  import opened Paths
  import opened Doozer
  import opened Classifier

  /** A value handed to `set`: a `str`, or anything else (named by its type). */
  datatype Value = Text(s: string) | NonText(typeName: string)

  /** The exceptions the mirror's methods let out. */
  datatype Error = TypeError(got: string) | Client(error: ClientError)

  /** What a method of the mirror does: return a value, or raise. */
  datatype Outcome<+T> = Returned(value: T) | Raised(error: Error)

  /** `get` returns the client's whole response, except after a revision mismatch, where it returns only the value. */
  datatype Fetched = Whole(response: Response) | ValueOnly(value: string)

  /**
   * How one `client.wait` of the watch loop ends: with a change; with a timeout, after which
   * the loop re-anchors on `marker` and reloads `walk`; or with any other exception, which the
   * loop does not catch and which therefore ends it.
   */
  datatype WaitEvent = Delivered(change: Response) | TimedOut(marker: int, walk: seq<Walked>) | Failed(error: ClientError)

  /** `revisions.get(key, 0)`: the revision a conditional call on `key` expects. */
  function Expected(revisions: map<string, int>, key: string): int
  {
    if key in revisions then revisions[key] else 0
  }

  /** The pattern the namespace is walked and watched with. */
  function Glob(path: string): string
  {
    path + "/**"
  }

  /** The `get` calls the load loop makes, one per walked file. */
  function Fetches(walk: seq<Walked>): seq<Request>
  {
    if walk == [] then []
    else Fetches(walk[..|walk| - 1]) + [GetReq(walk[|walk| - 1].file.path, None)]
  }

  /** Fetching one more file appends one more `get`. */
  lemma FetchesExtend(walk: seq<Walked>, i: nat)
    requires i < |walk|
    ensures Fetches(walk[..i + 1]) == Fetches(walk[..i]) + [GetReq(walk[i].file.path, None)]
  {
    assert walk[..i + 1][..i] == walk[..i];
  }

  class DoozerData {
    /** The namespace every key lives under. */
    const path: string
    /** key -> last revision this mirror has seen for it. */
    var revisions: map<string, int>
    /** `watch_event`: set (true) lets the watch loop go on, cleared (false) holds it at its wait. */
    var watchOpen: bool
    /** Every invocation of the callback, in order. */
    var notices: seq<Notice>
    /** Every call made on the client, in order. */
    var sent: seq<Request>
    /** The revision `watch` anchored the loop on when the mirror was built (`get_rev()`). */
    const startRev: int

    function View(): LocalView
      reads this
    {
      LocalView(revisions, notices)
    }

    /**
     * `__init__` with a callback: an empty table, the gate set, the initial load, then
     * `watch`, which asks for the current revision (`marker`, what `get_rev` returns)
     * and starts the loop from it.
     */
    constructor (path: string, walk: seq<Walked>, marker: int)
      ensures this.path == path && startRev == marker
      ensures View() == Loaded(LocalView(map[], []), walk)
      ensures watchOpen
      ensures sent == [WalkReq(Glob(path))] + Fetches(walk) + [RevReq]
    {
      this.path := path;
      startRev := marker;
      revisions := map[];
      watchOpen := true;
      notices := [];
      sent := [];
      new;
      LoadInitialData(walk);
      sent := sent + [RevReq];
    }

    /** `load_initial_data`: each walked file's fetched change goes through the classifier, then the file's revision is recorded. */
    method LoadInitialData(walk: seq<Walked>)
      modifies this
      ensures View() == Loaded(old(View()), walk)
      ensures watchOpen == old(watchOpen)
      ensures sent == old(sent) + [WalkReq(Glob(path))] + Fetches(walk)
    {
      sent := sent + [WalkReq(Glob(path))];
      var i := 0;
      while i < |walk|
        invariant 0 <= i <= |walk|
        invariant View() == Loaded(old(View()), walk[..i])
        invariant watchOpen == old(watchOpen)
        invariant sent == old(sent) + [WalkReq(Glob(path))] + Fetches(walk[..i])
      {
        var file := walk[i].file;
        ghost var before := View();
        sent := sent + [GetReq(file.path, None)];
        HandleChange(walk[i].got);
        revisions := revisions[KeyPath(file.path) := file.rev];
        LoadedExtend(old(View()), walk, i);
        FetchesExtend(walk, i);
        assert View() == LoadOne(before, walk[i]);
        assert View() == Loaded(old(View()), walk[..i+1]);
        assert sent == old(sent) + [WalkReq(Glob(path))] + Fetches(walk[..i+1]);
        i := i + 1;
      }
      assert walk[..i] == walk;
    }

    /**
     * One pass of the watch loop: wait for a change from `rev` on, handle it, and go on from
     * the revision after it. `stopped` says the exception ended the loop.
     */
    method WatchStep(rev: int, event: WaitEvent) returns (next: int, handled: bool, stopped: bool)
      modifies this
      ensures watchOpen == old(watchOpen)
      ensures stopped <==> event.Failed?
      ensures event.Failed? ==>
        sent == old(sent) + [WaitReq(Glob(path), rev)] && View() == old(View()) && next == rev && !handled
      ensures event.Delivered? ==> sent == old(sent) + [WaitReq(Glob(path), rev)] && handled == old(watchOpen)
      ensures event.Delivered? && old(watchOpen) ==> View() == Absorb(old(View()), event.change) && next == event.change.rev + 1
      ensures event.Delivered? && !old(watchOpen) ==> View() == old(View()) && next == rev
      ensures event.TimedOut? ==>
        sent == old(sent) + [WaitReq(Glob(path), rev), RevReq, WalkReq(Glob(path))] + Fetches(event.walk) &&
        View() == Loaded(old(View()), event.walk) && next == event.marker && !handled
    {
      sent := sent + [WaitReq(Glob(path), rev)];
      stopped := false;
      match event
      case Delivered(change) =>
        if !watchOpen {
          // the loop is held at `watch_event.wait()`; nothing is handled yet
          next, handled := rev, false;
          return;
        }
        HandleChange(change);
        next, handled := change.rev + 1, true;
      case TimedOut(marker, walk) =>
        next := Resync(marker, walk);
        assert sent == old(sent) + [WaitReq(Glob(path), rev)] + [RevReq, WalkReq(Glob(path))] + Fetches(walk);
        handled := false;
      case Failed(_) =>
        // only a timeout is caught: anything else leaves `watchjob`
        next, handled, stopped := rev, false, true;
    }

    /** The timeout handler of the watch loop: re-anchor on the current global revision `marker` (what `get_rev` eventually returns) and reload everything. */
    method Resync(marker: int, walk: seq<Walked>) returns (next: int)
      modifies this
      ensures next == marker
      ensures View() == Loaded(old(View()), walk)
      ensures watchOpen == old(watchOpen)
      ensures sent == old(sent) + [RevReq, WalkReq(Glob(path))] + Fetches(walk)
    {
      sent := sent + [RevReq];
      next := marker;
      LoadInitialData(walk);
    }

    /** `_handle_change`: ignore what is known, apply a foreign delete, otherwise record the revision and report a set. */
    method HandleChange(change: Response)
      modifies this
      ensures View() == Absorb(old(View()), change)
      ensures watchOpen == old(watchOpen) && sent == old(sent)
    {
      var key := KeyPath(change.path);
      var seen := OldOrDelete(key, change);
      if seen {
        return;
      }
      revisions := revisions[key := change.rev];
      if change.flags == SetFlag {
        revisions := revisions[key := change.rev];
        notices := notices + [Updated(change.value)];
        return;
      }
    }

    /** `_old_or_delete`: true for a change already seen and for a delete of a key still tracked; the latter is applied here. */
    method OldOrDelete(key: string, change: Response) returns (seen: bool)
      modifies this
      ensures seen <==> key in old(revisions) && (old(revisions)[key] == change.rev || change.flags == DelFlag)
      ensures if key in old(revisions) && old(revisions)[key] != change.rev && change.flags == DelFlag
        then revisions == old(revisions) - {key} && notices == old(notices) + [Destroyed(change.value, key)]
        else revisions == old(revisions) && notices == old(notices)
      ensures watchOpen == old(watchOpen) && sent == old(sent)
    {
      if key in revisions {
        if revisions[key] == change.rev {
          return true;
        }
        if change.flags == DelFlag {
          revisions := revisions - {key};
          notices := notices + [Destroyed(change.value, key)];
          return true;
        }
      }
      return false;
    }

    /**
     * `get`: read at the recorded revision (0 when none). A revision mismatch falls back
     * to the latest value and records its revision; too late falls back to the latest
     * response and records nothing.
     */
    method Get(key: string, first: Reply<Response>, latest: Reply<Response>) returns (r: Outcome<Fetched>)
      modifies this
      ensures notices == old(notices) && watchOpen == old(watchOpen)
      ensures |sent| > |old(sent)| && sent[|old(sent)|] == GetReq(Folder(path, key), Some(Expected(old(revisions), key)))
      ensures first.Ok? ==>
        sent == old(sent) + [GetReq(Folder(path, key), Some(Expected(old(revisions), key)))] &&
        revisions == old(revisions) && r == Returned(Whole(first.value))
      ensures first == Fail(RevMismatch) ==>
        sent == old(sent) + [GetReq(Folder(path, key), Some(Expected(old(revisions), key))), GetReq(Folder(path, key), None)] &&
        if latest.Ok?
        then revisions == old(revisions)[key := latest.value.rev] && r == Returned(ValueOnly(latest.value.value))
        else revisions == old(revisions) && r == Raised(Client(latest.error))
      ensures first == Fail(TooLate) ==>
        sent == old(sent) + [GetReq(Folder(path, key), Some(Expected(old(revisions), key))), GetReq(Folder(path, key), None)] &&
        revisions == old(revisions) &&
        r == if latest.Ok? then Returned(Whole(latest.value)) else Raised(Client(latest.error))
      ensures first.Fail? && first.error != RevMismatch && first.error != TooLate ==>
        sent == old(sent) + [GetReq(Folder(path, key), Some(Expected(old(revisions), key)))] &&
        revisions == old(revisions) && r == Raised(Client(first.error))
    {
      var rev := 0;
      if key in revisions {
        rev := revisions[key];
      }
      sent := sent + [GetReq(Folder(path, key), Some(rev))];
      match first
      case Ok(response) =>
        r := Returned(Whole(response));
      case Fail(e) =>
        if e == RevMismatch {
          sent := sent + [GetReq(Folder(path, key), None)];
          match latest
          case Ok(item) =>
            revisions := revisions[key := item.rev];
            r := Returned(ValueOnly(item.value));
          case Fail(e') =>
            r := Raised(Client(e'));
        } else if e == TooLate {
          sent := sent + [GetReq(Folder(path, key), None)];
          r := match latest
            case Ok(item) => Returned(Whole(item))
            case Fail(e') => Raised(Client(e'));
        } else {
          r := Raised(Client(e));
        }
    }

    /**
     * `set`: only a `str` is accepted, and it is written conditionally on the recorded
     * revision (0 when none). `reply` is the client's answer to the write, `stored`
     * its answer to the re-read that follows a revision mismatch.
     */
    method Set(key: string, value: Value, reply: Reply<Response>, stored: Reply<Response>) returns (r: Outcome<()>)
      modifies this
      ensures value.NonText? ==>
        r == Raised(TypeError(value.typeName)) &&
        revisions == old(revisions) && watchOpen == old(watchOpen) && notices == old(notices) && sent == old(sent)
      ensures value.Text? ==>
        |sent| > |old(sent)| && sent[|old(sent)|] == SetReq(Folder(path, key), value.s, Expected(old(revisions), key))
      ensures value.Text? ==> watchOpen == reply.Ok?
      ensures value.Text? && reply.Ok? ==>
        sent == old(sent) + [SetReq(Folder(path, key), value.s, Expected(old(revisions), key))] &&
        revisions == old(revisions)[key := reply.value.rev] && notices == old(notices) && r == Returned(())
      ensures value.Text? && reply == Fail(RevMismatch) ==>
        sent == old(sent) + [SetReq(Folder(path, key), value.s, Expected(old(revisions), key)), GetReq(Folder(path, key), None)] &&
        if stored.Ok? then View() == Absorb(old(View()), stored.value) && r == Returned(())
        else View() == old(View()) && r == Raised(Client(stored.error))
      ensures value.Text? && reply.Fail? && reply.error != RevMismatch ==>
        sent == old(sent) + [SetReq(Folder(path, key), value.s, Expected(old(revisions), key))] &&
        View() == old(View()) && r == Raised(Client(reply.error))
    {
      if value.NonText? {
        return Raised(TypeError(value.typeName));
      }
      var rev := 0;
      if key in revisions {
        rev := revisions[key];
      }
      r := SetAt(key, value.s, rev, reply, stored, false);
    }

    /**
     * `_set`: close the gate, write expecting `rev`; on success reopen it and record the new
     * revision, on a revision mismatch replay the stored value through `_handle_change`.
     * The code records the new revision under the caller's key only (`corrected == false`);
     * `corrected` also records it under `WrittenKey`, the key its echo is filed under.
     */
    method SetAt(key: string, value: string, rev: int, reply: Reply<Response>, stored: Reply<Response>,
                 corrected: bool) returns (r: Outcome<()>)
      modifies this
      ensures watchOpen == reply.Ok?
      ensures reply.Ok? ==>
        sent == old(sent) + [SetReq(Folder(path, key), value, rev)] &&
        revisions == (if corrected then old(revisions)[key := reply.value.rev][WrittenKey(path, key) := reply.value.rev]
                      else old(revisions)[key := reply.value.rev]) &&
        notices == old(notices) && r == Returned(())
      ensures reply == Fail(RevMismatch) ==>
        sent == old(sent) + [SetReq(Folder(path, key), value, rev), GetReq(Folder(path, key), None)] &&
        if stored.Ok? then View() == Absorb(old(View()), stored.value) && r == Returned(())
        else View() == old(View()) && r == Raised(Client(stored.error))
      ensures reply.Fail? && reply.error != RevMismatch ==>
        sent == old(sent) + [SetReq(Folder(path, key), value, rev)] &&
        View() == old(View()) && r == Raised(Client(reply.error))
    {
      watchOpen := false;
      sent := sent + [SetReq(Folder(path, key), value, rev)];
      match reply
      case Ok(response) =>
        watchOpen := true;
        revisions := revisions[key := response.rev];
        if corrected {
          revisions := revisions[WrittenKey(path, key) := response.rev];
        }
        r := Returned(());
      case Fail(e) =>
        if e == RevMismatch {
          sent := sent + [GetReq(Folder(path, key), None)];
          match stored
          case Ok(change) =>
            HandleChange(change);
            r := Returned(());
          case Fail(e') =>
            r := Raised(Client(e'));
        } else {
          r := Raised(Client(e));
        }
    }

    /**
     * `delete`: forget the key's revision when it is non-zero, then delete expecting it.
     * On a revision mismatch, delete again expecting the current global revision
     * (`marker`); a bad path is swallowed. The code forgets only the caller's key
     * (`corrected == false`); `corrected` also forgets `WrittenKey`, as the corrected
     * `_set` records both.
     */
    method Delete(key: string, first: Reply<Response>, marker: Reply<int>, second: Reply<Response>,
                  corrected: bool) returns (r: Outcome<()>)
      modifies this
      ensures revisions == if Expected(old(revisions), key) == 0 then old(revisions)
                           else if corrected then old(revisions) - {key, WrittenKey(path, key)}
                           else old(revisions) - {key}
      ensures Expected(old(revisions), key) != 0 ==> key !in revisions
      ensures notices == old(notices) && watchOpen == old(watchOpen)
      ensures first != Fail(RevMismatch) ==>
        sent == old(sent) + [DelReq(Folder(path, key), Expected(old(revisions), key))] &&
        r == if first.Ok? || first.error == BadPath then Returned(()) else Raised(Client(first.error))
      ensures first == Fail(RevMismatch) && marker.Ok? ==>
        sent == old(sent) + [DelReq(Folder(path, key), Expected(old(revisions), key)), RevReq, DelReq(Folder(path, key), marker.value)] &&
        r == if second.Ok? then Returned(()) else Raised(Client(second.error))
      ensures first == Fail(RevMismatch) && marker.Fail? ==>
        sent == old(sent) + [DelReq(Folder(path, key), Expected(old(revisions), key)), RevReq] &&
        r == Raised(Client(marker.error))
    {
      var rev := if key in revisions then revisions[key] else 0;
      if rev != 0 {
        revisions := revisions - {key};
        if corrected {
          revisions := revisions - {WrittenKey(path, key)};
        }
      }
      sent := sent + [DelReq(Folder(path, key), rev)];
      match first
      case Ok(_) =>
        r := Returned(());
      case Fail(e) =>
        if e == RevMismatch {
          sent := sent + [RevReq];
          match marker
          case Ok(current) =>
            sent := sent + [DelReq(Folder(path, key), current)];
            r := if second.Ok? then Returned(()) else Raised(Client(second.error));
          case Fail(e') =>
            r := Raised(Client(e'));
        } else if e == BadPath {
          r := Returned(());
        } else {
          r := Raised(Client(e));
        }
    }
  }

  /** The change a successful `set(key, value)` that got revision `rev` comes back as on the watch. */
  function Echo(path: string, key: string, rev: int, value: string): Response
  {
    Response(Folder(path, key), rev, SetFlag, value)
  }

  /**
   * Once `set` has recorded `key` at `rev`, the write's echo is ignored if `key` has neither '_' nor '/'.
   * Otherwise the echo is filed under `WrittenKey`, another key, so when that one is not tracked it reaches the callback.
   */
  lemma OwnEchoSuppressedOnlyForPlainKeys(path: string, key: string, revisions: map<string, int>,
                                          notices: seq<Notice>, rev: int, value: string)
    ensures var v := LocalView(revisions[key := rev], notices);
      '_' !in key && '/' !in key ==> Absorb(v, Echo(path, key, rev, value)) == v
    ensures var v := LocalView(revisions[key := rev], notices);
      ('_' in key || '/' in key) && WrittenKey(path, key) !in revisions ==>
        Absorb(v, Echo(path, key, rev, value)).notices == notices + [Updated(value)]
  {
    KeyPathOfFolderIsKey(path, key);
  }

  /** A mirror that writes "a_b" hears its own write back as somebody else's update. */
  method UnderscoreEchoFires(path: string, value: string, rev: int) returns (fired: seq<Notice>)
    ensures fired == [Updated(value)]
  {
    var d := new DoozerData(path, [], rev);
    var _ := d.Set("a_b", Text(value), Ok(Echo(path, "a_b", rev, value)), Fail(Timeout));
    OwnEchoSuppressedOnlyForPlainKeys(path, "a_b", map[], [], rev, value);
    var _, _, _ := d.WatchStep(rev, Delivered(Echo(path, "a_b", rev, value)));
    fired := d.notices;
  }

  /** A mirror that writes "x/y" hears its own write back too: the echo is filed under "y". */
  method SlashEchoFires(path: string, value: string, rev: int) returns (fired: seq<Notice>)
    ensures fired == [Updated(value)]
  {
    var d := new DoozerData(path, [], rev);
    var _ := d.Set("x/y", Text(value), Ok(Echo(path, "x/y", rev, value)), Fail(Timeout));
    assert '/' in "x/y";
    OwnEchoSuppressedOnlyForPlainKeys(path, "x/y", map[], [], rev, value);
    var _, _, _ := d.WatchStep(rev, Delivered(Echo(path, "x/y", rev, value)));
    fired := d.notices;
  }

  /** The key a write is to be recorded under so that its echo finds it: the key of its backend path. */
  function WrittenKey(path: string, key: string): (k: string)
    ensures '/' !in key ==> k == Dashed(key)
    ensures '_' !in k
  {
    KeyPathWithin(path, Dashed(key));
    var k := KeyPath(Folder(path, key));
    assert '/' !in key ==> k == Dashed(key) by {
      if '/' !in key {
        KeyPathOfFolder(path, key);
      }
    }
    k
  }

  /**
   * With the corrected `_set`, a fresh mirror that writes any key hears nothing of its own
   * write, and its next `set` of the key is still conditional on the write's revision.
   */
  method WrittenEchoIgnored(path: string, key: string, value: string, rev: int, marker: int,
                            later: string, reply: Reply<Response>, stored: Reply<Response>)
    returns (fired: seq<Notice>, handled: bool, request: Request)
    ensures handled && fired == []
    ensures request == SetReq(Folder(path, key), later, rev)
  {
    var d := new DoozerData(path, [], marker);
    var _ := d.SetAt(key, value, 0, Ok(Echo(path, key, rev, value)), Fail(Timeout), true);
    var _, h, _ := d.WatchStep(rev, Delivered(Echo(path, key, rev, value)));
    fired, handled := d.notices, h;
    var n := |d.sent|;
    var _ := d.Set(key, Text(later), reply, stored);
    request := d.sent[n];
  }

  /** The change a successful `delete(key)` that got revision `rev` comes back as on the watch. */
  function DeleteEcho(path: string, key: string, rev: int): Response
  {
    Response(Folder(path, key), rev, DelFlag, "")
  }

  /** A mirror that writes "a_b", hears the echo, then deletes "a_b", hears its own delete as somebody else's. */
  method UnderscoreDeleteEchoFires(path: string, value: string, rev: int) returns (fired: seq<Notice>)
    ensures fired == [Updated(value), Destroyed("", "a-b")]
  {
    var d := new DoozerData(path, [], rev);
    var _ := d.Set("a_b", Text(value), Ok(Echo(path, "a_b", rev, value)), Fail(Timeout));
    OwnEchoSuppressedOnlyForPlainKeys(path, "a_b", map[], [], rev, value);
    var _, _, _ := d.WatchStep(rev, Delivered(Echo(path, "a_b", rev, value)));
    assert WrittenKey(path, "a_b") == "a-b";
    var _ := d.Delete("a_b", Ok(DeleteEcho(path, "a_b", rev + 1)), Fail(Timeout), Fail(Timeout), false);
    var _, _, _ := d.WatchStep(rev + 1, Delivered(DeleteEcho(path, "a_b", rev + 1)));
    fired := d.notices;
  }

  /**
   * With the corrected `_set` and `delete`, a fresh mirror that writes any key, hears the echo,
   * deletes the key and hears that echo too, fires no callback. Revisions are positive: the
   * delete forgets a recorded revision only when it is not 0.
   */
  method WrittenDeleteEchoIgnored(path: string, key: string, value: string, rev: int) returns (fired: seq<Notice>)
    requires rev > 0
    ensures fired == []
  {
    var d := new DoozerData(path, [], rev);
    var _ := d.SetAt(key, value, 0, Ok(Echo(path, key, rev, value)), Fail(Timeout), true);
    var _, _, _ := d.WatchStep(rev, Delivered(Echo(path, key, rev, value)));
    var _ := d.Delete(key, Ok(DeleteEcho(path, key, rev + 1)), Fail(Timeout), Fail(Timeout), true);
    var _, _, _ := d.WatchStep(rev + 1, Delivered(DeleteEcho(path, key, rev + 1)));
    fired := d.notices;
  }

  /** After a write that met a revision mismatch the gate stays cleared, so the watch loop handles no change. */
  method ConflictStallsWatch(path: string, key: string, value: string, stored: Reply<Response>,
                             rev: int, change: Response) returns (handled: bool)
    ensures !handled
  {
    var d := new DoozerData(path, [], rev);
    var _ := d.Set(key, Text(value), Fail(RevMismatch), stored);
    var _, h, _ := d.WatchStep(rev, Delivered(change));
    handled := h;
  }
}
