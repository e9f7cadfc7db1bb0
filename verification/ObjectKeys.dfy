/**
 The object store's key namespace for data derived from files: every key is the
 owner, the file, the kind of object and, for previews, an upload id.
 */
module ObjectKeys {
  import opened Decimal

  datatype ObjectType = PreviewVideo | PreviewImage | MlData

  function TypeName(t: ObjectType): string {
    match t
    case PreviewVideo => "vid_preview"
    case PreviewImage => "img_preview"
    case MlData => "mldata"
  }

  function BasePrefix(file: int, owner: int): string {
    Print(owner) + "/" + ("file-data/" + (Print(file) + "/"))
  }

  /** ObjectKey: only the two preview types have objects of their own. */
  function ObjectKey(file: int, owner: int, t: ObjectType, id: string): Option<string> {
    if t == MlData then None else Some(BasePrefix(file, owner) + (TypeName(t) + "/" + id))
  }

  /** ObjectMetadataKey: a video's playlist, or the one ML object of a file. */
  function ObjectMetadataKey(file: int, owner: int, t: ObjectType, id: string): Option<string> {
    match t
    case PreviewVideo => Some(BasePrefix(file, owner) + (TypeName(t) + "/" + (id + "_playlist")))
    case MlData => Some(BasePrefix(file, owner) + TypeName(t))
    case PreviewImage => None
  }

  function DeletePrefix(file: int, owner: int, t: ObjectType): string {
    BasePrefix(file, owner) + (TypeName(t) + "/")
  }

  // ---- upload ids ----

  predicate IsAlphanumeric(c: char) {
    'a' <= c <= 'z' || 'A' <= c <= 'Z' || '0' <= c <= '9'
  }

  datatype NewIdResult = IdError | Id(id: string)

  /** NewID: a prefix of at least two lower-case letters and 22 random alphabet characters. */
  function NewID(prefix: string, random: string): NewIdResult {
    if |prefix| < 2 then IdError
    else if exists i :: 0 <= i < |prefix| && !('a' <= prefix[i] <= 'z') then IdError
    else Id(prefix + "_" + random)
  }

  /** What the random source yields. */
  predicate IsRandomPart(s: string) {
    |s| == 22 && forall i :: 0 <= i < |s| ==> IsAlphanumeric(s[i])
  }

  function NewUploadID(t: ObjectType, random: string): NewIdResult {
    match t
    case PreviewVideo => NewID("pv", random)
    case PreviewImage => NewID("pi", random)
    case MlData => IdError
  }

  /** The shape an upload id has. */
  ghost predicate IsUploadID(id: string) {
    exists t, random :: IsRandomPart(random) && NewUploadID(t, random) == Id(id)
  }

  lemma UploadIDShape(id: string)
    requires IsUploadID(id)
    ensures |id| == 25 && '/' !in id
  {
    var t, random :| IsRandomPart(random) && NewUploadID(t, random) == Id(id);
  }

  /** Upload ids are exactly the strings pv_ or pi_ and 22 letters and digits. */
  lemma UploadIDsExactly(id: string)
    ensures IsUploadID(id) <==> |id| == 25 && id[..3] in {"pv_", "pi_"} && IsRandomPart(id[3..])
  {
    if IsUploadID(id) {
      var t, random :| IsRandomPart(random) && NewUploadID(t, random) == Id(id);
      assert id[3..] == random;
      assert id[..3] == if t == PreviewVideo then "pv_" else "pi_";
    }
    if |id| == 25 && id[..3] in {"pv_", "pi_"} && IsRandomPart(id[3..]) {
      var t := if id[..3] == "pv_" then PreviewVideo else PreviewImage;
      assert id == id[..3] + id[3..];
      assert NewUploadID(t, id[3..]) == Id(id);
    }
  }

  // ---- the objects ----

  datatype Object =
    | Video(owner: int, file: int, id: string)
    | Playlist(owner: int, file: int, id: string)
    | Image(owner: int, file: int, id: string)
    | Ml(owner: int, file: int)

  ghost predicate IsObject(o: Object) {
    o.Ml? || IsUploadID(o.id)
  }

  function TypeOf(o: Object): ObjectType {
    match o
    case Video(_, _, _) => PreviewVideo
    case Playlist(_, _, _) => PreviewVideo
    case Image(_, _, _) => PreviewImage
    case Ml(_, _) => MlData
  }

  /** The key an object is stored under, as the two key functions give it. */
  function Key(o: Object): (k: string)
    ensures o.Video? ==> ObjectKey(o.file, o.owner, PreviewVideo, o.id) == Some(k)
    ensures o.Image? ==> ObjectKey(o.file, o.owner, PreviewImage, o.id) == Some(k)
    ensures o.Playlist? ==> ObjectMetadataKey(o.file, o.owner, PreviewVideo, o.id) == Some(k)
    ensures o.Ml? ==> forall id :: ObjectMetadataKey(o.file, o.owner, MlData, id) == Some(k)
  {
    BasePrefix(o.file, o.owner) + Rest(o)
  }

  /** The part of a key behind the base prefix. */
  function Rest(o: Object): string {
    match o
    case Video(_, _, id) => TypeName(PreviewVideo) + "/" + id
    case Playlist(_, _, id) => TypeName(PreviewVideo) + "/" + (id + "_playlist")
    case Image(_, _, id) => TypeName(PreviewImage) + "/" + id
    case Ml(_, _) => TypeName(MlData)
  }

  /** What a name goes on with behind owner and file. */
  function Tail(o: Object): string {
    match o
    case Video(_, _, id) => "/vid_preview/" + id
    case Playlist(_, _, id) => "/vid_preview/" + (id + "_playlist")
    case Image(_, _, id) => "/img_preview/" + id
    case Ml(_, _) => "/mldata"
  }

  lemma TypeFolders()
    ensures "/" + (TypeName(PreviewVideo) + "/") == "/vid_preview/"
    ensures "/" + (TypeName(PreviewImage) + "/") == "/img_preview/"
    ensures "/" + TypeName(MlData) == "/mldata"
  {}

  lemma Regroup(x: string, y: string, z: string)
    ensures x + (y + z) == (x + y) + z
  {}

  lemma SlashRest(o: Object)
    ensures "/" + Rest(o) == Tail(o)
  {
    TypeFolders();
    match o
    case Video(_, _, id) => Regroup("/", TypeName(PreviewVideo) + "/", id);
    case Playlist(_, _, id) => Regroup("/", TypeName(PreviewVideo) + "/", id + "_playlist");
    case Image(_, _, id) => Regroup("/", TypeName(PreviewImage) + "/", id);
    case Ml(_, _) =>
  }

  /** The name of an object, part by part: the owner, the folder for derived data, the file, and what it is. */
  lemma KeyParts(o: Object)
    ensures Key(o) == Print(o.owner) + "/file-data/" + Print(o.file) + Tail(o)
  {
    var front := Print(o.owner) + "/file-data/" + Print(o.file);
    assert "/" + "file-data/" == "/file-data/";
    assert BasePrefix(o.file, o.owner) == front + "/";
    Regroup(front, "/", Rest(o));
    SlashRest(o);
  }

  predicate StartsWith(s: string, p: string) {
    p <= s
  }

  // ---- separation ----

  /** One string cannot carry two base prefixes. */
  lemma BasePrefixUnique(file: int, owner: int, file': int, owner': int, x: string, y: string)
    requires BasePrefix(file, owner) + x == BasePrefix(file', owner') + y
    ensures file == file' && owner == owner' && x == y
  {
    var o, f, o', f' := Print(owner), Print(file), Print(owner'), Print(file');
    assert "/" == ['/'];
    assert BasePrefix(file, owner) + x == o + ['/'] + ("file-data/" + (f + ['/'] + x));
    assert BasePrefix(file', owner') + y == o' + ['/'] + ("file-data/" + (f' + ['/'] + y));
    SplitUnique(o, "file-data/" + (f + ['/'] + x), o', "file-data/" + (f' + ['/'] + y), '/');
    DropPrefix("file-data/", f + ['/'] + x, f' + ['/'] + y);
    SplitUnique(f, x, f', y, '/');
    PrintInjective(owner, owner');
    PrintInjective(file, file');
  }

  /** The first letter behind the base prefix tells the type. */
  lemma RestInitial(o: Object)
    ensures Rest(o)[0] == match TypeOf(o) case PreviewVideo => 'v' case PreviewImage => 'i' case MlData => 'm'
  {}

  lemma PreviewRestUnique(t: ObjectType, id: string, t': ObjectType, id': string)
    requires TypeName(t) + "/" + id == TypeName(t') + "/" + id'
    ensures TypeName(t) == TypeName(t') && id == id'
  {
    assert "/" == ['/'];
    SplitUnique(TypeName(t), id, TypeName(t'), id', '/');
  }

  /** Behind the base prefix an object is still recognised. */
  lemma RestInjective(o: Object, o': Object)
    requires IsObject(o) && IsObject(o') && Rest(o) == Rest(o')
    requires o.owner == o'.owner && o.file == o'.file
    ensures o == o'
  {
    if o.Ml? || o'.Ml? {
      RestInitial(o);
      RestInitial(o');
    } else {
      UploadIDShape(o.id);
      UploadIDShape(o'.id);
      var tail := if o.Playlist? then o.id + "_playlist" else o.id;
      var tail' := if o'.Playlist? then o'.id + "_playlist" else o'.id;
      PreviewRestUnique(TypeOf(o), tail, TypeOf(o'), tail');
      assert |tail| == |tail'|;
      assert tail[..25] == o.id && tail'[..25] == o'.id;
    }
  }

  /** All keys over all owners and files are pairwise distinct. */
  lemma KeysDistinct(o: Object, o': Object)
    requires IsObject(o) && IsObject(o')
    ensures Key(o) == Key(o') <==> o == o'
  {
    if Key(o) == Key(o') {
      BasePrefixUnique(o.file, o.owner, o'.file, o'.owner, Rest(o), Rest(o'));
      RestInjective(o, o');
    }
  }

  /** The base prefix of a file matches exactly that file's keys. */
  lemma BasePrefixMatchesExactly(o: Object, file: int, owner: int)
    ensures StartsWith(Key(o), BasePrefix(file, owner)) <==> o.file == file && o.owner == owner
  {
    var p := BasePrefix(file, owner);
    if StartsWith(Key(o), p) {
      assert Key(o) == p + Key(o)[|p|..];
      BasePrefixUnique(o.file, o.owner, file, owner, Rest(o), Key(o)[|p|..]);
    }
  }

  /** A preview's key goes on with its type and a slash, an ML key with nothing. */
  lemma RestHasType(o: Object, t: ObjectType, more: string)
    requires Rest(o) == TypeName(t) + "/" + more
    ensures t != MlData && TypeOf(o) == t
  {
    RestInitial(o);
    assert Rest(o)[0] == TypeName(t)[0];
  }

  lemma PrefixSplit(b: string, q: string, s: string)
    requires StartsWith(s, b + q)
    ensures s == b + (q + s[|b + q|..])
  {}

  lemma MatchedByDeletePrefix(o: Object, file: int, owner: int, t: ObjectType)
    requires StartsWith(Key(o), DeletePrefix(file, owner, t))
    ensures t != MlData && TypeOf(o) == t && o.file == file && o.owner == owner
  {
    var b, q := BasePrefix(file, owner), TypeName(t) + "/";
    var more := Key(o)[|b + q|..];
    PrefixSplit(b, q, Key(o));
    BasePrefixUnique(o.file, o.owner, file, owner, Rest(o), q + more);
    RestHasType(o, t, more);
  }

  lemma DeletePrefixMatches(o: Object)
    requires !o.Ml?
    ensures StartsWith(Key(o), DeletePrefix(o.file, o.owner, TypeOf(o)))
  {}

  /**
   For the preview types the delete prefix matches exactly that file's keys of that
   type; for ML data it matches none, the one ML key included.
   */
  lemma DeletePrefixMatchesExactly(o: Object, file: int, owner: int, t: ObjectType)
    ensures StartsWith(Key(o), DeletePrefix(file, owner, t))
       <==> t != MlData && TypeOf(o) == t && o.file == file && o.owner == owner
  {
    if StartsWith(Key(o), DeletePrefix(file, owner, t)) {
      MatchedByDeletePrefix(o, file, owner, t);
    }
    if t != MlData && TypeOf(o) == t && o.file == file && o.owner == owner {
      DeletePrefixMatches(o);
    }
  }
}
