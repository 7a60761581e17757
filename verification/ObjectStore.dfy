/**
  The local object store (src/zataone/storage/object_store.py, lines 46-101): the
  class runs whole calls; the machine stops a single writer between any two file
  steps, or in the middle of a write.
 */
module ObjectStore {
  import opened Options

  type Bytes = seq<bv8>

  // Files are named by a content hash: the object, its temporary copy, its sidecar.
  datatype Path = Object(hash: string) | Temporary(hash: string) | Sidecar(hash: string)

  // A sidecar that was cut short is no JSON, so it is Raw.
  datatype File = Raw(bytes: Bytes) | Json(contentType: string)

  type Files = map<Path, File>

  const DEFAULT_CONTENT_TYPE := "application/octet-stream"

  // An absent and an empty content type both mean the default.
  function TypeOf(contentType: Option<string>): string {
    if contentType == None || contentType == Some("") then DEFAULT_CONTENT_TYPE else contentType.value
  }

  datatype Found = Found(bytes: Bytes, contentType: string)

  // _get_local; None is FileNotFoundError.
  function Get(files: Files, hash: string): Option<Found> {
    if Object(hash) !in files || !files[Object(hash)].Raw? then None
    else
      var contentType :=
        if Sidecar(hash) in files && files[Sidecar(hash)].Json? then files[Sidecar(hash)].contentType
        else DEFAULT_CONTENT_TYPE;
      Some(Found(files[Object(hash)].bytes, contentType))
  }

  // An object is served with the type in its sidecar, or as a stream of octets where there is
  // no readable one; a put without a type, or with an empty one, writes that type too.
  lemma ServedTypes(files: Files, hash: string, contentType: Option<string>)
    ensures Get(files, hash).Some? <==> Object(hash) in files && files[Object(hash)].Raw?
    ensures Get(files, hash).Some? ==>
              Get(files, hash).value
              == Found(files[Object(hash)].bytes,
                       if Sidecar(hash) in files && files[Sidecar(hash)].Json? then files[Sidecar(hash)].contentType
                       else "application/octet-stream")
    ensures TypeOf(contentType)
         == if contentType.GetOr("") == "" then "application/octet-stream" else contentType.value
  {
  }

  /******* Whole calls *******/

  class LocalStore {
    var files: Files
    const hash: Bytes -> string

    // Every object holds exactly the bytes its name is the hash of.
    ghost predicate Valid()
      reads this
    {
      ObjectsMatch(hash, files)
    }

    constructor (h: Bytes -> string)
      ensures Valid() && files == map[] && hash == h
    {
      hash := h;
      files := map[];
    }

    // put with _put_local; the result names the stored object.
    method Put(data: Bytes, contentType: Option<string>) returns (uri: string)
      requires Valid()
      modifies this`files
      ensures Valid() && uri == hash(data)
      ensures Object(uri) in old(files) ==> files == old(files)
      ensures Object(uri) !in old(files) ==>
                Get(files, uri) == Some(Found(data, TypeOf(contentType)))
      ensures forall p: Path :: p.hash != uri ==>
                (p in files <==> p in old(files)) && (p in files ==> files[p] == old(files)[p])
    {
      uri := hash(data);
      if Object(uri) !in files {
        files := files[Temporary(uri) := Raw(data)];
        files := (files - {Temporary(uri)})[Object(uri) := files[Temporary(uri)]];
        files := files[Sidecar(uri) := Json(TypeOf(contentType))];
      }
    }
  }

  /******* One writer, step by step *******/

  datatype Phase =
    | Idle
    | Checking(data: Bytes, contentType: string)   // before path.is_file()
    | Writing(data: Bytes, contentType: string)    // writing the temporary file
    | Replacing(data: Bytes, contentType: string)  // before tmp.replace(path)
    | Labelling(data: Bytes, contentType: string)  // writing the sidecar

  datatype Disk = Disk(files: Files, writer: Phase, finished: seq<Bytes>)

  const EMPTY := Disk(map[], Idle, [])

  // `written` says how much of the current write reaches the disk in this step; the
  // write is over when all of it has. Of a sidecar, 0 stands for any part that is no JSON
  // and every other number for all of it. A crash forgets the writer and keeps the files.
  datatype Action = Begin(data: Bytes, contentType: string) | Advance(written: nat) | Crash

  function Step(hash: Bytes -> string, d: Disk, a: Action): Disk {
    match a
    case Begin(data, contentType) => if d.writer.Idle? then d.(writer := Checking(data, contentType)) else d
    case Crash => d.(writer := Idle)
    case Advance(written) =>
      match d.writer
      case Idle => d
      case Checking(data, ct) =>
        if Object(hash(data)) in d.files then d.(writer := Idle, finished := d.finished + [data])
        else d.(writer := Writing(data, ct))
      case Writing(data, ct) =>
        if written < |data| then d.(files := d.files[Temporary(hash(data)) := Raw(data[..written])])
        else d.(files := d.files[Temporary(hash(data)) := Raw(data)], writer := Replacing(data, ct))
      case Replacing(data, ct) =>
        if Temporary(hash(data)) !in d.files then d.(writer := Idle)
        else d.(files := (d.files - {Temporary(hash(data))})[Object(hash(data)) := d.files[Temporary(hash(data))]],
                writer := Labelling(data, ct))
      case Labelling(data, ct) =>
        if written == 0 then d.(files := d.files[Sidecar(hash(data)) := Raw([])])
        else d.(files := d.files[Sidecar(hash(data)) := Json(ct)], writer := Idle, finished := d.finished + [data])
  }

  function Steps(hash: Bytes -> string, d: Disk, actions: seq<Action>): Disk {
    if actions == [] then d
    else Step(hash, Steps(hash, d, actions[..|actions| - 1]), actions[|actions| - 1])
  }

  /******* The invariant *******/

  ghost predicate ObjectsMatch(hash: Bytes -> string, files: Files) {
    forall p :: p in files && p.Object? ==> files[p].Raw? && hash(files[p].bytes) == p.hash
  }

  // The sidecar is missing, or was cut short.
  predicate Unlabelled(files: Files, hash: string) {
    Sidecar(hash) !in files || files[Sidecar(hash)].Raw?
  }

  ghost predicate WriterOk(hash: Bytes -> string, d: Disk) {
    match d.writer
    case Writing(data, _) => Object(hash(data)) !in d.files
    case Replacing(data, _) =>
      && Object(hash(data)) !in d.files
      && Temporary(hash(data)) in d.files && d.files[Temporary(hash(data))] == Raw(data)
    case Labelling(data, _) => Object(hash(data)) in d.files && Unlabelled(d.files, hash(data))
    case _ => true
  }

  ghost predicate Inv(hash: Bytes -> string, d: Disk) {
    && ObjectsMatch(hash, d.files)
    && WriterOk(hash, d)
    && (forall p :: p in d.files && p.Sidecar? ==> Object(p.hash) in d.files)
    && (forall x :: x in d.finished ==> Object(hash(x)) in d.files)
  }

  lemma StepKeeps(hash: Bytes -> string, d: Disk, a: Action)
    requires Inv(hash, d)
    ensures Inv(hash, Step(hash, d, a))
  {
  }

  lemma {:induction false} StepsKeep(hash: Bytes -> string, d: Disk, actions: seq<Action>)
    requires Inv(hash, d)
    ensures Inv(hash, Steps(hash, d, actions))
  {
    if actions != [] {
      StepsKeep(hash, d, actions[..|actions| - 1]);
      StepKeeps(hash, Steps(hash, d, actions[..|actions| - 1]), actions[|actions| - 1]);
    }
  }

  // An object file, once visible, is never touched again.
  lemma ObjectKept(hash: Bytes -> string, d: Disk, a: Action, h: string)
    requires Inv(hash, d) && Object(h) in d.files
    ensures var e := Step(hash, d, a); Object(h) in e.files && e.files[Object(h)] == d.files[Object(h)]
  {
  }

  lemma {:induction false} ObjectKeptForever(hash: Bytes -> string, d: Disk, actions: seq<Action>, h: string)
    requires Inv(hash, d) && Object(h) in d.files
    ensures var e := Steps(hash, d, actions); Object(h) in e.files && e.files[Object(h)] == d.files[Object(h)]
  {
    if actions != [] {
      var n := |actions| - 1;
      ObjectKeptForever(hash, d, actions[..n], h);
      StepsKeep(hash, d, actions[..n]);
      ObjectKept(hash, Steps(hash, d, actions[..n]), actions[n], h);
    }
  }

  /******* What callers may rely on *******/

  // Main theorem: after any steps and any crashes, every visible object holds exactly the
  // bytes of its hash.
  lemma VisibleObjectsMatch(hash: Bytes -> string, actions: seq<Action>, h: string)
    ensures var found := Get(Steps(hash, EMPTY, actions).files, h);
            found.Some? ==> hash(found.value.bytes) == h
  {
    StepsKeep(hash, EMPTY, actions);
  }

  // Once a put of some data has finished, every later get under its hash returns that
  // data, provided no other data has the same hash.
  lemma FinishedPutIsDurable(hash: Bytes -> string, before: seq<Action>, after: seq<Action>, data: Bytes)
    requires data in Steps(hash, EMPTY, before).finished
    requires forall x: Bytes :: hash(x) == hash(data) ==> x == data
    ensures var found := Get(Steps(hash, Steps(hash, EMPTY, before), after).files, hash(data));
            found.Some? && found.value.bytes == data
  {
    var d := Steps(hash, EMPTY, before);
    StepsKeep(hash, EMPTY, before);
    StepsKeep(hash, d, after);
    ObjectKeptForever(hash, d, after, hash(data));
  }

  // Putting what is already stored ends without touching a file.
  lemma PutAgainChangesNothing(hash: Bytes -> string, d: Disk, data: Bytes, contentType: string, written: nat)
    requires Inv(hash, d) && d.writer.Idle? && Object(hash(data)) in d.files
    ensures var e := Step(hash, Step(hash, d, Begin(data, contentType)), Advance(written));
            e.files == d.files && e.writer == Idle && e.finished == d.finished + [data]
  {
  }

  // An uninterrupted put does on the machine what the call does.
  lemma UninterruptedPut(hash: Bytes -> string, d: Disk, data: Bytes, contentType: string)
    requires Inv(hash, d) && d.writer.Idle? && Object(hash(data)) !in d.files
    ensures var n := |data|;
            var e := Steps(hash, d, [Begin(data, contentType), Advance(n), Advance(n), Advance(n), Advance(1)]);
            && e.writer == Idle && e.finished == d.finished + [data]
            && Get(e.files, hash(data)) == Some(Found(data, contentType))
  {
    var n := |data|;
    var steps := [Begin(data, contentType), Advance(n), Advance(n), Advance(n), Advance(1)];
    assert steps[..4][..3] == steps[..3] && steps[..3][..2] == steps[..2];
    assert steps[..2][..1] == steps[..1] && steps[..1][..0] == [];
    var d1 := Step(hash, d, steps[0]);
    var d2 := Step(hash, d1, steps[1]);
    var d3 := Step(hash, d2, steps[2]);
    var d4 := Step(hash, d3, steps[3]);
    assert Steps(hash, d, steps[..1]) == d1;
    assert Steps(hash, d, steps[..2]) == d2;
    assert Steps(hash, d, steps[..3]) == d3;
    assert Steps(hash, d, steps[..4]) == d4;
  }

  // The content type is not as safe as the bytes. Once the writer is no longer labelling
  // an object, its sidecar stays as it is ...
  lemma SidecarKept(hash: Bytes -> string, d: Disk, a: Action, h: string)
    requires Inv(hash, d) && Object(h) in d.files
    requires d.writer.Labelling? ==> hash(d.writer.data) != h
    ensures var e := Step(hash, d, a);
            && Object(h) in e.files
            && (e.writer.Labelling? ==> hash(e.writer.data) != h)
            && Get(e.files, h) == Get(d.files, h)
  {
  }

  lemma {:induction false} ContentTypeIsFrozen(hash: Bytes -> string, d: Disk, actions: seq<Action>, h: string)
    requires Inv(hash, d) && Object(h) in d.files
    requires d.writer.Labelling? ==> hash(d.writer.data) != h
    ensures var e := Steps(hash, d, actions);
            && Object(h) in e.files
            && (e.writer.Labelling? ==> hash(e.writer.data) != h)
            && Get(e.files, h) == Get(d.files, h)
  {
    if actions != [] {
      var n := |actions| - 1;
      ContentTypeIsFrozen(hash, d, actions[..n], h);
      StepsKeep(hash, d, actions[..n]);
      SidecarKept(hash, Steps(hash, d, actions[..n]), actions[n], h);
    }
  }

  // ... and until then it has none: the writer is cut off by a crash, or gets to the end
  // of its write.
  predicate Labelled(actions: seq<Action>) {
    actions != [] && !actions[0].Crash? &&
    ((actions[0].Advance? && actions[0].written > 0) || Labelled(actions[1..]))
  }

  lemma {:induction false} StepsFirst(hash: Bytes -> string, d: Disk, actions: seq<Action>)
    requires actions != []
    ensures Steps(hash, d, actions) == Steps(hash, Step(hash, d, actions[0]), actions[1..])
  {
    var n := |actions| - 1;
    if n > 0 {
      StepsFirst(hash, d, actions[..n]);
      assert actions[..n][1..] == actions[1..][..n - 1];
    } else {
      assert actions[..0] == [];
    }
  }

  // Every object comes into place by a step after which its own put has the sidecar to write.
  lemma PlacedBeforeLabelled(hash: Bytes -> string, d: Disk, a: Action, h: string)
    requires Inv(hash, d) && Object(h) !in d.files && Object(h) in Step(hash, d, a).files
    ensures var e := Step(hash, d, a); Inv(hash, e) && e.writer.Labelling? && hash(e.writer.data) == h
  {
    StepKeeps(hash, d, a);
  }

  // Main theorem: once an object is in place, and whatever happens afterwards, it is
  // served with the content type of its own put exactly when that put gets to the end of
  // the sidecar before a crash; else with the default, for good.
  lemma {:induction false} ContentTypeIff(hash: Bytes -> string, d: Disk, actions: seq<Action>)
    requires Inv(hash, d) && d.writer.Labelling?
    ensures Get(Steps(hash, d, actions).files, hash(d.writer.data))
         == Some(Found(d.files[Object(hash(d.writer.data))].bytes,
                       if Labelled(actions) then d.writer.contentType else DEFAULT_CONTENT_TYPE))
    decreases |actions|
  {
    if actions != [] {
      var e := Step(hash, d, actions[0]);
      StepsFirst(hash, d, actions);
      StepKeeps(hash, d, actions[0]);
      if e.writer.Labelling? {
        ContentTypeIff(hash, e, actions[1..]);
      } else {
        ContentTypeIsFrozen(hash, e, actions[1..], hash(d.writer.data));
      }
    }
  }
}
