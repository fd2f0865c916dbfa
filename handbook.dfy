/** The fabrication handbook screen: a list of drawings kept in browser
    storage, to which read image files are added in front, and from which
    drawings are removed or renamed by id. */
module Handbook {
  import opened Base
  import opened Lists

  datatype Drawing = Drawing(id: string, name: string, dataUrl: string, addedAt: string)

  /** `loadDrawings`: `stored` is the storage entry (None when absent or
      when reading it throws) and `parse` is JSON.parse (None when it
      throws). An absent, empty or unparsable entry gives no drawings. */
  function LoadDrawings(stored: Option<string>, parse: string -> Option<seq<Drawing>>): (r: seq<Drawing>)
    ensures !Truthy(stored) ==> r == []
    ensures Truthy(stored) && parse(stored.value).None? ==> r == []
    ensures Truthy(stored) && parse(stored.value).Some? ==> r == parse(stored.value).value
  {
    if !Truthy(stored) then []
    else match parse(stored.value)
      case None => []
      case Some(ds) => ds
  }

  // ---------------------------------------------------------------------
  // File names

  /** The position of the last '.' in s, if any. */
  function LastDot(s: string): (r: Option<nat>)
    ensures r.Some? ==> r.value < |s| && s[r.value] == '.' && forall k :: r.value < k < |s| ==> s[k] != '.'
    ensures r.None? ==> forall k :: 0 <= k < |s| ==> s[k] != '.'
  {
    if s == [] then None
    else if s[|s| - 1] == '.' then Some(|s| - 1)
    else LastDot(s[..|s| - 1])
  }

  /** `name.replace(/\.[^.]+$/, '')`: a final '.' followed by at least one
      character and no further '.' is cut off with what follows it. The
      result is the name or a proper prefix of it, and what is cut off is a
      '.' and at least one further character, none of them a '.'. */
  function StripExtension(s: string): (r: string)
    ensures |r| <= |s| && r == s[..|r|]
    ensures r != s ==> |r| + 1 < |s| && s[|r|] == '.' && forall k :: |r| < k < |s| ==> s[k] != '.'
  {
    match LastDot(s)
    case None => s
    case Some(p) => if p + 1 < |s| then s[..p] else s
  }

  /** `base + "." + ext` with a non-empty ext without '.' loses exactly
      ".ext"; a name without '.' or ending in '.' is kept whole. */
  lemma StripExtensionOf(base: string, ext: string)
    requires ext != [] && forall k :: 0 <= k < |ext| ==> ext[k] != '.'
    ensures StripExtension(base + "." + ext) == base
    ensures (forall k :: 0 <= k < |base| ==> base[k] != '.') ==> StripExtension(base) == base
    ensures StripExtension(base + ".") == base + "."
  {
    var s := base + "." + ext;
    var p := LastDot(s);
    assert s[|base|] == '.';
    assert p.Some? && p.value == |base| by {
      forall k | |base| < k < |s|
        ensures s[k] != '.'
      {
        assert s[k] == ext[k - |base| - 1];
      }
    }
    assert s[..|base|] == base;
    var t := base + ".";
    assert LastDot(t) == Some(|base|) by {
      assert t[..|t| - 1] == base;
    }
  }

  // ---------------------------------------------------------------------
  // Adding, removing and renaming

  /** A file read by the FileReader: its name and data URL, or a read error. */
  datatype FileRead = Loaded(name: string, dataUrl: string) | ReadError

  /** The drawing made from the i-th file read; `newId(i)` stands for the
      time-and-random id and `now` for the ISO time of the read. */
  function NewDrawing(f: FileRead, i: nat, newId: nat -> string, now: string): Drawing
    requires f.Loaded?
  {
    Drawing(newId(i), StripExtension(f.name), f.dataUrl, now)
  }

  /** The drawings made from the files, in file order. */
  function NewDrawings(files: seq<FileRead>, newId: nat -> string, now: string): (r: seq<Drawing>)
    requires forall k :: 0 <= k < |files| ==> files[k].Loaded?
    ensures |r| == |files|
  {
    seq(|files|, k requires 0 <= k < |files| => NewDrawing(files[k], k, newId, now))
  }

  /** `handleAddFiles`: with no files, or when any read fails (the
      `Promise.all` rejects), the list is unchanged; otherwise the new
      drawings come first, in file order, before the existing ones. */
  function AddFiles(prev: seq<Drawing>, files: seq<FileRead>, newId: nat -> string, now: string): (r: seq<Drawing>)
    ensures (exists k :: 0 <= k < |files| && files[k].ReadError?) ==> r == prev
    ensures (forall k :: 0 <= k < |files| ==> files[k].Loaded?) ==>
      |r| == |files| + |prev| && r[|files|..] == prev
      && forall k :: 0 <= k < |files| ==>
           r[k].name == StripExtension(files[k].name) && r[k].dataUrl == files[k].dataUrl
  {
    if files == [] then prev
    else if exists k :: 0 <= k < |files| && files[k].ReadError? then prev
    else NewDrawings(files, newId, now) + prev
  }

  /** `removeDrawing`'s list update. */
  function RemoveDrawing(ds: seq<Drawing>, id: string): (r: seq<Drawing>)
    ensures forall k :: 0 <= k < |r| ==> r[k].id != id
  {
    Filter(ds, (d: Drawing) => d.id != id)
  }

  /** Every drawing with another id stays, as many times as before, and
      every drawing with this id goes. */
  lemma RemoveDrawingKeeps(ds: seq<Drawing>, id: string, d: Drawing)
    ensures multiset(RemoveDrawing(ds, id))[d] == if d.id != id then multiset(ds)[d] else 0
    ensures (forall k :: 0 <= k < |ds| ==> ds[k].id != id) ==> RemoveDrawing(ds, id) == ds
  {
    FilterCount(ds, (x: Drawing) => x.id != id, d);
    if forall k :: 0 <= k < |ds| ==> ds[k].id != id {
      FilterAll(ds, (x: Drawing) => x.id != id);
    }
  }

  /** The preview is closed when it shows the removed drawing. */
  function PreviewAfterRemove(preview: Option<Drawing>, id: string): (r: Option<Drawing>)
    ensures r.None? <==> preview.None? || preview.value.id == id
    ensures r.Some? ==> r == preview
  {
    if preview.Some? && preview.value.id == id then None else preview
  }

  /** The rename being typed: the drawing's id and the text so far. */
  datatype Renaming = Renaming(id: string, value: string)

  /** `commitRename`'s list update: the trimmed name goes to the drawings
      with that id; nothing changes with no rename under way or a blank
      name. */
  function CommitRename(ds: seq<Drawing>, renaming: Option<Renaming>): (r: seq<Drawing>)
    ensures |r| == |ds|
    ensures renaming.None? || Trim(renaming.value.value) == "" ==> r == ds
    ensures renaming.Some? && Trim(renaming.value.value) != "" ==>
      forall k :: 0 <= k < |ds| ==>
        r[k] == if ds[k].id == renaming.value.id then ds[k].(name := Trim(renaming.value.value)) else ds[k]
  {
    if renaming.None? then ds
    else
      var name := Trim(renaming.value.value);
      if name == "" then ds
      else MapWhere(ds, (d: Drawing) => d.id, renaming.value.id, (d: Drawing) => d.(name := name))
  }

  /** Committing the same rename twice is committing it once, and a
      committed name is never blank nor padded. */
  lemma CommitRenameOnce(ds: seq<Drawing>, renaming: Option<Renaming>)
    ensures CommitRename(CommitRename(ds, renaming), renaming) == CommitRename(ds, renaming)
    ensures renaming.Some? ==> forall k :: 0 <= k < |ds| && ds[k].id == renaming.value.id ==>
      var n := CommitRename(ds, renaming)[k].name;
      n == ds[k].name || (n != "" && Trim(n) == n)
  {
    if renaming.Some? {
      var name := Trim(renaming.value.value);
      TrimIdempotent(renaming.value.value);
      TrimEmptyIff(renaming.value.value);
      var once := CommitRename(ds, renaming);
      assert CommitRename(once, renaming) == once;
    }
  }
}
