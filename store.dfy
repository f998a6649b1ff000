/** The file system the kernel talks to, as an abstract store: an ordered
    directory of fixed-width names, each with its contents. Only what the
    kernel relies on is modelled: listing, create-or-truncate, reading into a
    bounded buffer and overwriting a file's contents. */
module FileStore {
  import opened Common

  datatype Store = Store(names: seq<seq<Byte>>, contents: seq<seq<Byte>>)

  /** Names are full-width and pairwise distinct, every name has contents,
      and the directory and each file keep within their capacities. */
  ghost predicate StoreValid(s: Store)
  {
    && |s.names| == |s.contents| <= MAX_FILES_STORED
    && (forall i :: 0 <= i < |s.names| ==> |s.names[i]| == MAX_FILENAME_BYTES)
    && (forall i, j :: 0 <= i < j < |s.names| ==> s.names[i] != s.names[j])
    && (forall i :: 0 <= i < |s.contents| ==> |s.contents[i]| <= MAX_FILE_BYTES)
  }

  /** A name as the directory lists it: its bytes followed by zeros up to the
      fixed width. */
  function Padded(name: seq<Byte>): (p: seq<Byte>)
    requires |name| <= MAX_FILENAME_BYTES
    ensures |p| == MAX_FILENAME_BYTES && p[..|name|] == name
    ensures forall i :: |name| <= i < MAX_FILENAME_BYTES ==> p[i] == 0
  {
    name + Fill(0, MAX_FILENAME_BYTES - |name|)
  }

  /** Position of `key` among `names[from..]`, searching from the front. */
  function FindFrom(names: seq<seq<Byte>>, key: seq<Byte>, from: nat): (r: Option<nat>)
    requires from <= |names|
    ensures r.Some? ==> from <= r.value < |names| && names[r.value] == key
    ensures r.Some? ==> forall i :: from <= i < r.value ==> names[i] != key
    ensures r.None? ==> forall i :: from <= i < |names| ==> names[i] != key
    decreases |names| - from
  {
    if from == |names| then None
    else if names[from] == key then Some(from)
    else FindFrom(names, key, from + 1)
  }

  /** Where the directory lists `key`, if anywhere. */
  function Find(s: Store, key: seq<Byte>): (r: Option<nat>)
    ensures r.Some? ==> r.value < |s.names| && s.names[r.value] == key
    ensures r.None? <==> key !in s.names
  {
    FindFrom(s.names, key, 0)
  }

  /** In a valid store a listed name is found at its own position. */
  lemma FindListed(s: Store, k: nat)
    requires StoreValid(s) && k < |s.names|
    ensures Find(s, s.names[k]) == Some(k)
  {
  }

  /** `open_create` succeeds: the name is already listed, or there is room
      for one more file. */
  predicate CanCreate(s: Store, name: seq<Byte>)
    requires |name| <= MAX_FILENAME_BYTES
  {
    Padded(name) in s.names || |s.names| < MAX_FILES_STORED
  }

  /** `open_create`: an existing file is truncated to empty, a new name is
      listed last with empty contents. Every other file, its position and
      its contents stay as they were. */
  function Create(s: Store, name: seq<Byte>): (r: Store)
    requires StoreValid(s) && |name| <= MAX_FILENAME_BYTES && CanCreate(s, name)
    ensures StoreValid(r)
    ensures |r.names| == |s.names| + (if Padded(name) in s.names then 0 else 1)
    ensures r.names[..|s.names|] == s.names
    ensures Find(r, Padded(name)).Some? && r.contents[Find(r, Padded(name)).value] == []
    ensures forall i :: 0 <= i < |s.names| && s.names[i] != Padded(name) ==> r.contents[i] == s.contents[i]
  {
    match Find(s, Padded(name))
    case Some(k) => Store(s.names, s.contents[k := []])
    case None =>
      var r := Store(s.names + [Padded(name)], s.contents + [[]]);
      assert r.names[|s.names|] == Padded(name);
      r
  }

  /** `read` into a buffer of `cap` bytes: as many of the file's bytes, from
      the front, as fit. */
  function ReadFile(s: Store, k: nat, cap: nat): (data: seq<Byte>)
    requires k < |s.contents|
    ensures |data| == Min(|s.contents[k]|, cap)
    ensures data == s.contents[k][..|data|]
    ensures |s.contents[k]| <= cap ==> data == s.contents[k]
  {
    s.contents[k][..Min(|s.contents[k]|, cap)]
  }

  /** `write` of `data` to file `k` just created (so empty): its contents
      become `data` and nothing else changes. */
  function Overwrite(s: Store, k: nat, data: seq<Byte>): (r: Store)
    requires StoreValid(s) && k < |s.names| && |data| <= MAX_FILE_BYTES
    ensures StoreValid(r) && r.names == s.names
    ensures r.contents[k] == data
    ensures forall i :: 0 <= i < |s.contents| && i != k ==> r.contents[i] == s.contents[i]
  {
    Store(s.names, s.contents[k := data])
  }
}
