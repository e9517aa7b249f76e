/**
 * Links from a game to the video file on this machine: file handles kept in
 * one browser object store under "key:<team>-<title>" (or, for older callers,
 * "game:<id>"), and a copy of the file kept in the origin-private file system
 * under a directory named after the sanitised key.
 */
module LocalFiles {
  import opened Common

  // ---------------------------------------------------------------------
  // Keys

  /** `makeGameKey`: the team id and the game title joined by '-'. */
  function MakeGameKey(teamId: string, title: string): string {
    teamId + "-" + title
  }

  /**
   * Team ids of one length (the ids are UUIDs) give one key per game: the key
   * determines the team and the title.
   */
  lemma MakeGameKeyInjective(a: string, titleA: string, b: string, titleB: string)
    requires |a| == |b|
    requires MakeGameKey(a, titleA) == MakeGameKey(b, titleB)
    ensures a == b && titleA == titleB
  {
    var k := MakeGameKey(a, titleA);
    assert a == k[..|a|] && b == k[..|b|];
    assert titleA == k[|a| + 1..] && titleB == k[|b| + 1..];
  }

  /** Without the equal-length condition two games can share a key. */
  lemma MakeGameKeyCollision()
    ensures MakeGameKey("a-b", "c") == MakeGameKey("a", "b-c")
  {
  }

  /** The store key a handle linked by game key lives under. */
  function KeyEntry(key: string): string {
    "key:" + key
  }

  /** The store key a handle linked by game id lives under. */
  function GameEntry(gameId: string): string {
    "game:" + gameId
  }

  /** The two namespaces never meet, and each is one entry per key. */
  lemma EntriesDistinct(key: string, gameId: string, key2: string, gameId2: string)
    ensures KeyEntry(key) != GameEntry(gameId)
    ensures KeyEntry(key) == KeyEntry(key2) <==> key == key2
    ensures GameEntry(gameId) == GameEntry(gameId2) <==> gameId == gameId2
  {
    assert KeyEntry(key)[0] == 'k' && GameEntry(gameId)[0] == 'g';
    if KeyEntry(key) == KeyEntry(key2) {
      assert key == KeyEntry(key)[4..] && key2 == KeyEntry(key2)[4..];
    }
    if GameEntry(gameId) == GameEntry(gameId2) {
      assert gameId == GameEntry(gameId)[5..] && gameId2 == GameEntry(gameId2)[5..];
    }
  }

  /** Letters, digits, '.', '_' and '-': what `/[^a-z0-9._-]/gi` does not replace. */
  predicate SafeChar(c: char) {
    'a' <= c <= 'z' || 'A' <= c <= 'Z' || '0' <= c <= '9' || c == '.' || c == '_' || c == '-'
  }

  /** `safeKey`: every character outside the safe set becomes '_'. */
  function SafeKey(key: string): (r: string)
    ensures |r| == |key|
    ensures forall i :: 0 <= i < |r| ==> SafeChar(r[i])
    ensures forall i :: 0 <= i < |r| ==> r[i] == (if SafeChar(key[i]) then key[i] else '_')
  {
    if key == [] then []
    else [if SafeChar(key[0]) then key[0] else '_'] + SafeKey(key[1..])
  }

  /** A key of safe characters only is its own safe form. */
  lemma {:induction false} SafeKeyKeepsSafe(key: string)
    requires forall i :: 0 <= i < |key| ==> SafeChar(key[i])
    ensures SafeKey(key) == key
  {
    if key != [] {
      SafeKeyKeepsSafe(key[1..]);
    }
  }

  /** Sanitising twice is sanitising once. */
  lemma SafeKeyIdempotent(key: string)
    ensures SafeKey(SafeKey(key)) == SafeKey(key)
  {
    SafeKeyKeepsSafe(SafeKey(key));
  }

  /** Keys that differ only in unsafe characters share one cache directory. */
  lemma SafeKeyCollision()
    ensures SafeKey("G 1") == SafeKey("G_1")
  {
    var a, b := SafeKey("G 1"), SafeKey("G_1");
    assert a[0] == b[0] && a[1] == b[1] && a[2] == b[2];
  }

  // ---------------------------------------------------------------------
  // The handle store

  /** A file handle returned by the file picker. */
  datatype FileHandle = FileHandle(name: string)

  datatype Permission = Granted | Denied | Prompt

  /** Opening a stored link: the handle, or the reason it failed. */
  datatype Opened = Failed(reason: string) | Handle(handle: FileHandle)

  /**
   * `ensureReadPerm`, given what the handle answers to the permission query
   * and to the permission request (`None` where the handle has no such method).
   */
  function ReadPermitted(query: Option<Permission>, request: Option<Permission>): (ok: bool)
    ensures ok <==> query == Some(Granted) || request == Some(Granted)
  {
    if query == Some(Granted) then true else request == Some(Granted)
  }

  /** The object store: a stored value may be null (a falsy handle). */
  class HandleStore {
    var entries: map<string, Option<FileHandle>>

    /** `idbGet`: a missing entry reads as null. */
    function Lookup(entry: string): (h: Option<FileHandle>)
      reads this
      ensures h.Some? ==> entry in entries && entries[entry] == h
    {
      if entry in entries then entries[entry] else None
    }

    constructor ()
      ensures entries == map[]
    {
      entries := map[];
    }

    /** `idbPut`. */
    method Put(entry: string, h: Option<FileHandle>)
      modifies this
      ensures entries == old(entries)[entry := h]
      ensures Lookup(entry) == h
      ensures forall e :: e != entry ==> Lookup(e) == old(Lookup(e))
    {
      entries := entries[entry := h];
    }

    /** `idbDel`. */
    method Delete(entry: string)
      modifies this
      ensures entries == old(entries) - {entry}
      ensures Lookup(entry) == None
      ensures forall e :: e != entry ==> Lookup(e) == old(Lookup(e))
    {
      entries := entries - {entry};
    }

    /** `hasFileHandleFor…`: whether a truthy handle is stored. */
    method Has(entry: string) returns (b: bool)
      ensures b <==> Lookup(entry).Some?
    {
      b := entry in entries && entries[entry].Some?;
    }

    /** `urlFor…`: fails with 'no-handle', then 'permission-denied'; otherwise opens the file. */
    method UrlFor(entry: string, query: Option<Permission>, request: Option<Permission>) returns (r: Opened)
      ensures Lookup(entry).None? ==> r == Failed("no-handle")
      ensures Lookup(entry).Some? && !ReadPermitted(query, request) ==> r == Failed("permission-denied")
      ensures r.Handle? <==> Lookup(entry).Some? && ReadPermitted(query, request)
      ensures r.Handle? ==> Lookup(entry) == Some(r.handle)
    {
      var h := Lookup(entry);
      if h.None? {
        return Failed("no-handle");
      }
      var permitted := ReadPermitted(query, request);
      if !permitted {
        return Failed("permission-denied");
      }
      r := Handle(h.value);
    }

    /**
     * `relinkFor…`: with no picker it fails with 'picker-unavailable'; a picker the user
     * cancels (`picked` is None) rejects with an AbortError; else the picked file is stored.
     */
    method Relink(entry: string, pickerAvailable: bool, picked: Option<FileHandle>) returns (r: Opened)
      modifies this
      ensures !pickerAvailable ==> r == Failed("picker-unavailable") && entries == old(entries)
      ensures pickerAvailable && picked.None? ==> r == Failed("AbortError") && entries == old(entries)
      ensures pickerAvailable && picked.Some? ==> r == Handle(picked.value) && entries == old(entries)[entry := picked]
    {
      if !pickerAvailable {
        return Failed("picker-unavailable");
      }
      if picked.None? {
        return Failed("AbortError");
      }
      Put(entry, picked);
      r := Handle(picked.value);
    }

    /** `storeFileHandleForKey`: the game-id namespace is untouched. */
    method StoreFileHandleForKey(key: string, h: Option<FileHandle>)
      modifies this
      ensures Lookup(KeyEntry(key)) == h
      ensures forall id :: Lookup(GameEntry(id)) == old(Lookup(GameEntry(id)))
      ensures forall k :: k != key ==> Lookup(KeyEntry(k)) == old(Lookup(KeyEntry(k)))
    {
      Put(KeyEntry(key), h);
      forall id ensures KeyEntry(key) != GameEntry(id) {
        EntriesDistinct(key, id, key, id);
      }
      forall k | k != key ensures KeyEntry(k) != KeyEntry(key) {
        EntriesDistinct(k, "", key, "");
      }
    }

    method HasFileHandleForKey(key: string) returns (b: bool)
      ensures b <==> Lookup(KeyEntry(key)).Some?
    {
      b := Has(KeyEntry(key));
    }

    method UrlForKey(key: string, query: Option<Permission>, request: Option<Permission>) returns (r: Opened)
      ensures Lookup(KeyEntry(key)).None? ==> r == Failed("no-handle")
      ensures Lookup(KeyEntry(key)).Some? && !ReadPermitted(query, request) ==> r == Failed("permission-denied")
      ensures r.Handle? <==> Lookup(KeyEntry(key)).Some? && ReadPermitted(query, request)
    {
      r := UrlFor(KeyEntry(key), query, request);
    }

    method RelinkForKey(key: string, pickerAvailable: bool, picked: Option<FileHandle>) returns (r: Opened)
      modifies this
      ensures !pickerAvailable ==> r == Failed("picker-unavailable") && entries == old(entries)
      ensures pickerAvailable && picked.None? ==> r == Failed("AbortError") && entries == old(entries)
      ensures pickerAvailable && picked.Some? ==> r == Handle(picked.value) && Lookup(KeyEntry(key)) == picked
    {
      r := Relink(KeyEntry(key), pickerAvailable, picked);
    }

    /** `removeFileHandleForKey`: afterwards nothing is linked under that key. */
    method RemoveFileHandleForKey(key: string)
      modifies this
      ensures Lookup(KeyEntry(key)) == None
      ensures forall id :: Lookup(GameEntry(id)) == old(Lookup(GameEntry(id)))
    {
      Delete(KeyEntry(key));
      forall id ensures KeyEntry(key) != GameEntry(id) {
        EntriesDistinct(key, id, key, id);
      }
    }

    /** `storeFileHandleForGame`: the game-key namespace is untouched. */
    method StoreFileHandleForGame(gameId: string, h: Option<FileHandle>)
      modifies this
      ensures Lookup(GameEntry(gameId)) == h
      ensures forall k :: Lookup(KeyEntry(k)) == old(Lookup(KeyEntry(k)))
    {
      Put(GameEntry(gameId), h);
      forall k ensures KeyEntry(k) != GameEntry(gameId) {
        EntriesDistinct(k, gameId, k, gameId);
      }
    }

    method HasFileHandleForGame(gameId: string) returns (b: bool)
      ensures b <==> Lookup(GameEntry(gameId)).Some?
    {
      b := Has(GameEntry(gameId));
    }

    method UrlForGame(gameId: string, query: Option<Permission>, request: Option<Permission>) returns (r: Opened)
      ensures Lookup(GameEntry(gameId)).None? ==> r == Failed("no-handle")
      ensures Lookup(GameEntry(gameId)).Some? && !ReadPermitted(query, request) ==> r == Failed("permission-denied")
      ensures r.Handle? <==> Lookup(GameEntry(gameId)).Some? && ReadPermitted(query, request)
    {
      r := UrlFor(GameEntry(gameId), query, request);
    }

    method RelinkForGame(gameId: string, pickerAvailable: bool, picked: Option<FileHandle>) returns (r: Opened)
      modifies this
      ensures !pickerAvailable ==> r == Failed("picker-unavailable") && entries == old(entries)
      ensures pickerAvailable && picked.None? ==> r == Failed("AbortError") && entries == old(entries)
      ensures pickerAvailable && picked.Some? ==> r == Handle(picked.value) && Lookup(GameEntry(gameId)) == picked
    {
      r := Relink(GameEntry(gameId), pickerAvailable, picked);
    }

    method RemoveFileHandleForGame(gameId: string)
      modifies this
      ensures Lookup(GameEntry(gameId)) == None
      ensures forall k :: Lookup(KeyEntry(k)) == old(Lookup(KeyEntry(k)))
    {
      Delete(GameEntry(gameId));
      forall k ensures KeyEntry(k) != GameEntry(gameId) {
        EntriesDistinct(k, gameId, k, gameId);
      }
    }
  }

  // ---------------------------------------------------------------------
  // The private file-system copy

  /** A cached copy of a video file. */
  datatype Blob = Blob(name: string, size: nat)

  /** Reading a cached copy: the file, or the error name. */
  datatype Cached = Miss(error: string) | Copy(blob: Blob)

  /**
   * The origin-private file system as far as these functions see it: whether
   * it exists at all, and the "videos" directory (absent until the first copy)
   * mapping each sub-directory name to its "source" file.
   */
  class PrivateFiles {
    const supported: bool
    var videos: Option<map<string, Blob>>

    constructor (supported: bool)
      ensures this.supported == supported && videos == None
    {
      this.supported := supported;
      videos := None;
    }

    /** `cacheOPFSForKey`: the copy goes to the directory named by the safe key, created on demand. */
    method CacheOPFSForKey(key: string, file: Blob) returns (error: Option<string>)
      modifies this
      ensures !supported ==> error == Some("opfs-unsupported") && videos == old(videos)
      ensures supported ==> error == None && videos == Some(old(videos).GetOr(map[])[SafeKey(key) := file])
    {
      if !supported {
        return Some("opfs-unsupported");
      }
      var dirs := videos.GetOr(map[]);
      videos := Some(dirs[SafeKey(key) := file]);
      error := None;
    }

    /** `opfsUrlForKey`: 'opfs-unsupported', the missing "videos" directory, 'opfs-miss', or the copy. */
    method OpfsUrlForKey(key: string) returns (r: Cached)
      ensures !supported ==> r == Miss("opfs-unsupported")
      ensures supported && videos.None? ==> r == Miss("NotFoundError")
      ensures supported && videos.Some? && SafeKey(key) !in videos.value ==> r == Miss("opfs-miss")
      ensures r.Copy? <==> supported && videos.Some? && SafeKey(key) in videos.value
      ensures r.Copy? ==> r.blob == videos.value[SafeKey(key)]
    {
      if !supported {
        return Miss("opfs-unsupported");
      }
      if videos.None? {
        return Miss("NotFoundError");
      }
      var name := SafeKey(key);
      if name !in videos.value {
        return Miss("opfs-miss");
      }
      r := Copy(videos.value[name]);
    }

    /** `hasOPFSForKey`: whether opening the copy would succeed. */
    method HasOPFSForKey(key: string) returns (b: bool)
      ensures b <==> supported && videos.Some? && SafeKey(key) in videos.value
    {
      var r := OpfsUrlForKey(key);
      b := r.Copy?;
    }

    /** `removeOPFSForKey`: removing a directory that is not there is not an error. */
    method RemoveOPFSForKey(key: string) returns (error: Option<string>)
      modifies this
      ensures !supported ==> error == Some("opfs-unsupported") && videos == old(videos)
      ensures supported && old(videos).None? ==> error == Some("NotFoundError") && videos == None
      ensures supported && old(videos).Some? ==> error == None && videos == Some(old(videos).value - {SafeKey(key)})
    {
      if !supported {
        return Some("opfs-unsupported");
      }
      if videos.None? {
        return Some("NotFoundError");
      }
      videos := Some(videos.value - {SafeKey(key)});
      error := None;
    }
  }
}
