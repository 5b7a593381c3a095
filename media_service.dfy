/** MediaService: validation of an uploaded image, the stored name and record,
    the record lookup, and the choice of file getMediaData reads. Paths follow
    java.nio on a Unix file system; the file system itself (existence, copy,
    read) is a set of functions handed in by the caller. */
module MediaFiles {
  import opened Common

  type byte = bv8

  // ---------------------------------------------------------------------------
  // Paths

  /** A java.nio Unix path: absolute or not, and its name elements. */
  datatype Path = Path(absolute: bool, names: seq<string>)

  /** A name element is never empty and never holds a separator. */
  predicate IsName(name: string) {
    name != [] && '/' !in name
  }

  /** The name elements of a path string: the runs between separators, with
      repeated separators collapsed. `current` is the run read so far. */
  function SplitNames(s: string, current: string): (names: seq<string>)
    requires '/' !in current
    ensures forall i :: 0 <= i < |names| ==> IsName(names[i])
    decreases |s|
  {
    if s == [] then (if current == [] then [] else [current])
    else if s[0] == '/' then (if current == [] then [] else [current]) + SplitNames(s[1..], [])
    else SplitNames(s[1..], current + [s[0]])
  }

  /** Paths.get(s): absolute iff the string starts with a separator, and every
      name element a proper name. */
  function ParsePath(s: string): (p: Path)
    ensures p.absolute <==> s != [] && s[0] == '/'
    ensures forall i :: 0 <= i < |p.names| ==> IsName(p.names[i])
  {
    Path(StartsWith(s, "/"), SplitNames(s, []))
  }

  /** Path.resolve: an absolute argument replaces the base; a relative one is appended. */
  function Resolve(base: Path, other: Path): (p: Path)
    ensures other.absolute ==> p == other
    ensures !other.absolute ==> p.absolute == base.absolute && p.names == base.names + other.names
  {
    if other.absolute then other else Path(base.absolute, base.names + other.names)
  }

  /** Path.getFileName: the last name element; null for a root or empty path. */
  function FileName(p: Path): (r: Option<string>)
    ensures r.None? <==> p.names == []
    ensures r.Some? ==> r.value == p.names[|p.names| - 1]
  {
    if p.names == [] then None else Some(p.names[|p.names| - 1])
  }

  function Join(names: seq<string>): string {
    if names == [] then []
    else if |names| == 1 then names[0]
    else names[0] + "/" + Join(names[1..])
  }

  /** Path.toString: an absolute path prints with a leading separator. */
  function PathString(p: Path): (s: string)
    ensures p.absolute ==> s != [] && s[0] == '/'
  {
    (if p.absolute then "/" else "") + Join(p.names)
  }

  /** A single name element parses back to itself as a one-element relative path. */
  lemma {:induction false} ParseName(name: string, current: string)
    requires '/' !in name && '/' !in current && current + name != []
    ensures SplitNames(name, current) == [current + name]
    decreases |name|
  {
    if name == [] {
      assert current + name == current;
    } else {
      assert name[0] in name;
      assert (current + [name[0]]) + name[1..] == current + name;
      assert forall c :: c in name[1..] ==> c in name;
      ParseName(name[1..], current + [name[0]]);
    }
  }

  // ---------------------------------------------------------------------------
  // String.contains facts used for the ".." check

  lemma ContainsSelf(s: string)
    ensures Contains(s, s)
  {
    assert s[..|s|] == s;
  }

  lemma {:induction false} ContainsExtendRight(t: string, u: string, part: string)
    requires Contains(t, part)
    ensures Contains(t + u, part)
    decreases |t|
  {
    assert (t + u)[..|part|] == t[..|part|];
    if t[..|part|] != part {
      assert (t + u)[1..] == t[1..] + u;
      ContainsExtendRight(t[1..], u, part);
    }
  }

  lemma {:induction false} ContainsExtendLeft(t: string, u: string, part: string)
    requires Contains(u, part)
    ensures Contains(t + u, part)
    decreases |t|
  {
    if t == [] {
      assert t + u == u;
    } else {
      assert (t + u)[1..] == t[1..] + u;
      ContainsExtendLeft(t[1..], u, part);
    }
  }

  /** Every name element of a path string occurs in the string. */
  lemma {:induction false} NamesOccur(s: string, current: string, name: string)
    requires '/' !in current
    requires name in SplitNames(s, current)
    ensures Contains(current + s, name)
    decreases |s|
  {
    if s == [] {
      assert current + s == current;
      ContainsSelf(current);
    } else if s[0] == '/' {
      var rest := SplitNames(s[1..], []);
      if current != [] && name == current {
        ContainsSelf(current);
        ContainsExtendRight(current, s, name);
      } else {
        assert name in rest;
        NamesOccur(s[1..], [], name);
        assert [] + s[1..] == s[1..];
        assert current + s == (current + [s[0]]) + s[1..];
        ContainsExtendLeft(current + [s[0]], s[1..], name);
      }
    } else {
      NamesOccur(s[1..], current + [s[0]], name);
      assert (current + [s[0]]) + s[1..] == current + s;
    }
  }

  /** A string without ".." parses to a path without a parent step. */
  lemma NoParentStep(s: string)
    requires !Contains(s, "..")
    ensures ".." !in ParsePath(s).names
  {
    assert [] + s == s;
    if ".." in ParsePath(s).names {
      NamesOccur(s, [], "..");
    }
  }

  // ---------------------------------------------------------------------------
  // uploadMedia validation

  /** The multipart upload: its size in bytes, and the client-supplied name and
      content type, either of which may be null. */
  datatype UploadFile = UploadFile(size: int, originalFilename: Option<string>, contentType: Option<string>)

  /** The upload limit, 8 MiB. */
  const MaxUploadBytes := 8 * 1024 * 1024

  const TooLarge := IOFault("File size exceeds the limit of 8MB")
  const NotAnImage := IOFault("Only image files are allowed")

  const ImageExtensions: seq<string> := [".jpg", ".jpeg", ".png", ".gif", ".webp", ".bmp"]

  function LowerChar(c: char): char {
    if 'A' <= c <= 'Z' then (c as int + 32) as char else c
  }

  /** String.toLowerCase on the ASCII letters: no upper-case letter is left, an
      upper-case letter becomes its lower-case partner 32 code points on, and
      every other character is kept. */
  function Lower(s: string): (r: string)
    ensures |r| == |s|
    ensures forall i :: 0 <= i < |r| ==> !('A' <= r[i] <= 'Z')
    ensures forall i :: 0 <= i < |s| && 'A' <= s[i] <= 'Z' ==> r[i] as int == s[i] as int + 32
    ensures forall i :: 0 <= i < |s| && !('A' <= s[i] <= 'Z') ==> r[i] == s[i]
  {
    seq(|s|, i requires 0 <= i < |s| => LowerChar(s[i]))
  }

  /** Lower-casing twice is lower-casing once. */
  lemma LowerIdempotent(s: string)
    ensures Lower(Lower(s)) == Lower(s)
  {
  }

  predicate HasImageExtension(name: string) {
    exists i :: 0 <= i < |ImageExtensions| && EndsWith(Lower(name), ImageExtensions[i])
  }

  /** The extension test does not depend on the letter case of the name. */
  lemma ExtensionIgnoresCase(name: string)
    ensures HasImageExtension(Lower(name)) == HasImageExtension(name)
  {
    LowerIdempotent(name);
  }

  /** The extension test spelled out as the chain of endsWith calls. */
  lemma ExtensionList(name: string)
    ensures var lower := Lower(name);
      HasImageExtension(name) <==>
        || EndsWith(lower, ".jpg") || EndsWith(lower, ".jpeg") || EndsWith(lower, ".png")
        || EndsWith(lower, ".gif") || EndsWith(lower, ".webp") || EndsWith(lower, ".bmp")
  {
    var lower := Lower(name);
    if EndsWith(lower, ".jpg") || EndsWith(lower, ".jpeg") || EndsWith(lower, ".png")
      || EndsWith(lower, ".gif") || EndsWith(lower, ".webp") || EndsWith(lower, ".bmp")
    {
      assert EndsWith(lower, ImageExtensions[0]) || EndsWith(lower, ImageExtensions[1])
        || EndsWith(lower, ImageExtensions[2]) || EndsWith(lower, ImageExtensions[3])
        || EndsWith(lower, ImageExtensions[4]) || EndsWith(lower, ImageExtensions[5]);
    }
  }

  /** The image test: an image content type, or else a file name with an image
      extension; a file with neither a name nor a content type is never an image. */
  predicate IsImage(file: UploadFile)
    ensures file.contentType.Some? && StartsWith(file.contentType.value, "image/") ==> IsImage(file)
    ensures IsImage(file) ==> file.contentType.Some? || file.originalFilename.Some?
    ensures file.originalFilename.Some? && HasImageExtension(file.originalFilename.value) ==> IsImage(file)
  {
    || (file.contentType.Some? && StartsWith(file.contentType.value, "image/"))
    || (file.originalFilename.Some? && HasImageExtension(file.originalFilename.value))
  }

  /** The verdict of the checks before anything is stored: size first, then type. */
  function CheckUpload(file: UploadFile): (r: Option<Fault>)
    ensures file.size > MaxUploadBytes ==> r == Some(TooLarge)
    ensures file.size <= MaxUploadBytes ==> (r.None? <==> IsImage(file))
    ensures file.size <= MaxUploadBytes && !IsImage(file) ==> r == Some(NotAnImage)
  {
    if file.size > MaxUploadBytes then Some(TooLarge)
    else if !IsImage(file) then Some(NotAnImage)
    else None
  }

  /** A file of exactly 8 MiB passes the size check; one byte more is refused
      whatever its type, and an image content type is enough whatever the name. */
  lemma UploadLimits(name: Option<string>, contentType: string)
    requires StartsWith(contentType, "image/")
    ensures CheckUpload(UploadFile(MaxUploadBytes, name, Some(contentType))).None?
    ensures CheckUpload(UploadFile(MaxUploadBytes + 1, name, Some(contentType))) == Some(TooLarge)
  {
  }

  /** A generic content type is rescued by an image extension in any letter case,
      and not by any other extension. */
  lemma UploadByExtension()
    ensures CheckUpload(UploadFile(7, Some("screenshot.png"), Some("application/octet-stream"))).None?
    ensures CheckUpload(UploadFile(7, Some("PHOTO.JPG"), None)).None?
    ensures CheckUpload(UploadFile(7, Some("document.pdf"), Some("application/pdf"))) == Some(NotAnImage)
  {
    assert EndsWith(Lower("screenshot.png"), ImageExtensions[2]) by {
      assert Lower("screenshot.png")[10..] == ".png";
    }
    assert EndsWith(Lower("PHOTO.JPG"), ImageExtensions[0]) by {
      assert Lower("PHOTO.JPG")[5..] == ".jpg";
    }
    PdfIsNoImage();
    assert !StartsWith("application/pdf", "image/") by {
      assert "application/pdf"[0] != "image/"[0];
    }
    assert !StartsWith("application/octet-stream", "image/") by {
      assert "application/octet-stream"[0] != "image/"[0];
    }
  }

  lemma PdfIsNoImage()
    ensures !HasImageExtension("document.pdf")
  {
    var lower := Lower("document.pdf");
    assert lower[|lower| - 2] == 'd';
    forall i | 0 <= i < |ImageExtensions| ensures !EndsWith(lower, ImageExtensions[i]) {
      var e := ImageExtensions[i];
      assert i == 0 || i == 1 || i == 2 || i == 3 || i == 4 || i == 5;
      assert e[|e| - 2] != 'd';
    }
  }

  /** The stored file name: the random prefix, "_", and the cleaned original name
      (a null name is concatenated as "null"). */
  function StoredName(uuid: string, originalFilename: Option<string>, cleanPath: string -> string): (name: string)
    ensures StartsWith(name, uuid + "_")
    ensures |name| == |uuid| + 1 + (if originalFilename.Some? then |cleanPath(originalFilename.value)| else 4)
    ensures originalFilename.Some? ==> EndsWith(name, cleanPath(originalFilename.value))
    ensures originalFilename.None? ==> EndsWith(name, "null")
  {
    var name := uuid + "_" + (if originalFilename.Some? then cleanPath(originalFilename.value) else "null");
    assert name[..|uuid + "_"|] == uuid + "_";
    name
  }

  function StoreFailure(fileName: string): Fault {
    IOFault("Could not store file " + fileName + ". Please try again!")
  }

  /** A saved Media document: the original name, the content type, the stored
      file name (relative to the storage root) and the uploader. */
  datatype MediaRecord = MediaRecord(
    id: Option<string>,
    name: Option<string>,
    mediaType: Option<string>,
    filePath: string,
    uploaderId: string)

  const MediaNotFound := StatusFault(NotFound, "Media not found")

  // ---------------------------------------------------------------------------
  // getMediaData path choice

  /** The file getMediaData reads for a stored path: a relative path under the
      storage root; an absolute path as is when it exists, and otherwise its last
      name element under the root; and in every case only a path that exists. */
  function ResolveStored(root: Path, storedPath: string, present: Path -> bool): (r: Result<Path, Fault>)
    ensures r.Success? ==> present(r.value)
    ensures r.Failure? ==> r.error == NullPointerFault || r.error.IOFault?
  {
    var stored := ParsePath(storedPath);
    var candidate :=
      if stored.absolute then
        if present(stored) then Success(stored)
        else if FileName(stored).None? then Failure(NullPointerFault)
        else Success(Resolve(root, ParsePath(FileName(stored).value)))
      else Success(Resolve(root, stored));
    if candidate.Failure? then candidate
    else if !present(candidate.value) then Failure(IOFault("File not found at " + PathString(candidate.value)))
    else candidate
  }

  /** The three branches of the path choice. */
  lemma ResolveBranches(root: Path, storedPath: string, present: Path -> bool)
    ensures var stored := ParsePath(storedPath); var r := ResolveStored(root, storedPath, present);
      && (!stored.absolute ==>
            var p := Path(root.absolute, root.names + stored.names);
            r == if present(p) then Success(p) else Failure(IOFault("File not found at " + PathString(p))))
      && (stored.absolute && present(stored) ==> r == Success(stored))
      && (stored.absolute && !present(stored) && stored.names == [] ==> r == Failure(NullPointerFault))
      && (stored.absolute && !present(stored) && stored.names != [] ==>
            var p := Path(root.absolute, root.names + [stored.names[|stored.names| - 1]]);
            r == if present(p) then Success(p) else Failure(IOFault("File not found at " + PathString(p))))
  {
    var stored := ParsePath(storedPath);
    if stored.absolute && !present(stored) && stored.names != [] {
      var last := stored.names[|stored.names| - 1];
      assert IsName(last);
      ParseName(last, []);
      assert [] + last == last;
      assert !StartsWith(last, "/") by { assert last[0] in last; }
    }
  }

  /** A legacy absolute path whose file is gone is looked up by its last name
      element in the current storage root. */
  lemma MovedFileFallsBack(root: Path, dirs: seq<string>, name: string, present: Path -> bool)
    requires forall i :: 0 <= i < |dirs| ==> IsName(dirs[i])
    requires IsName(name)
    requires !present(Path(true, dirs + [name]))
    ensures var p := Path(root.absolute, root.names + [name]);
      ResolveStored(root, PathString(Path(true, dirs + [name])), present)
        == if present(p) then Success(p) else Failure(IOFault("File not found at " + PathString(p)))
  {
    var stored := Path(true, dirs + [name]);
    PathRoundTrip(stored);
    ResolveBranches(root, PathString(stored), present);
  }

  /** A run without separators joins the run being read. */
  lemma {:induction false} SplitNamesRun(run: string, s: string, current: string)
    requires '/' !in run && '/' !in current
    ensures '/' !in current + run
    ensures SplitNames(run + s, current) == SplitNames(s, current + run)
    decreases |run|
  {
    if run == [] {
      assert run + s == s && current + run == current;
    } else {
      assert run[0] in run;
      assert forall c :: c in run[1..] ==> c in run;
      assert (run + s)[0] == run[0] && (run + s)[1..] == run[1..] + s;
      assert (current + [run[0]]) + run[1..] == current + run;
      SplitNamesRun(run[1..], s, current + [run[0]]);
    }
  }

  /** The joined names split back into the same names. */
  lemma {:induction false} SplitJoin(names: seq<string>)
    requires forall i :: 0 <= i < |names| ==> IsName(names[i])
    ensures SplitNames(Join(names), []) == names
  {
    if |names| == 1 {
      SplitNamesRun(names[0], [], []);
      assert names[0] + [] == names[0] && [] + names[0] == names[0];
    } else if |names| > 1 {
      var rest := Join(names[1..]);
      SplitJoin(names[1..]);
      assert Join(names) == names[0] + ("/" + rest);
      SplitNamesRun(names[0], "/" + rest, []);
      assert [] + names[0] == names[0];
      assert ("/" + rest)[1..] == rest;
      assert names == [names[0]] + names[1..];
    }
  }

  /** Path.toString and Paths.get are inverse on well-formed paths. */
  lemma PathRoundTrip(p: Path)
    requires forall i :: 0 <= i < |p.names| ==> IsName(p.names[i])
    ensures ParsePath(PathString(p)) == p
  {
    var joined := Join(p.names);
    SplitJoin(p.names);
    if p.absolute {
      assert PathString(p) == "/" + joined;
      assert ("/" + joined)[1..] == joined;
      assert StartsWith(PathString(p), "/");
    } else {
      assert PathString(p) == joined;
      if p.names != [] {
        assert p.names[0][0] in p.names[0];
        JoinStartsWithFirst(p.names);
      }
    }
  }

  lemma JoinStartsWithFirst(names: seq<string>)
    requires names != [] && names[0] != []
    ensures Join(names) != [] && Join(names)[0] == names[0][0]
  {
  }

  // ---------------------------------------------------------------------------
  // The service

  class MediaService {
    var media: map<string, MediaRecord>
    ghost var saveLog: seq<MediaRecord>
    /** The storage directory, absolute. */
    const root: Path

    ghost predicate Valid()
      reads this
    {
      forall id :: id in media ==> media[id].id == Some(id)
    }

    constructor (root: Path)
      requires root.absolute
      ensures Valid() && media == map[] && saveLog == [] && this.root == root
    {
      this.root := root;
      media := map[];
      saveLog := [];
    }

    /** MediaRepository.save: a fresh id for a new record. */
    method Save(record: MediaRecord) returns (saved: MediaRecord)
      requires Valid() && record.id.None?
      modifies this
      ensures Valid() && saved.id.Some? && saved.id.value !in old(media)
      ensures saved == record.(id := saved.id)
      ensures media == old(media)[saved.id.value := saved]
      ensures saveLog == old(saveLog) + [saved]
    {
      var id := FreshKey(media);
      saved := record.(id := Some(id));
      media := media[id := saved];
      saveLog := saveLog + [saved];
    }

    /** uploadMedia: size, then type, then the stored name's ".." check and the
        copy into the storage root; only then is one record saved. `uuid` is the
        random prefix, `cleanPath` is StringUtils.cleanPath and `copy` says whether
        Files.copy to the target succeeds. */
    method UploadMedia(file: UploadFile, uploaderId: string, uuid: string, cleanPath: string -> string, copy: Path -> bool)
      returns (r: Result<MediaRecord, Fault>)
      requires Valid()
      modifies this
      ensures Valid()
      ensures CheckUpload(file).Some? ==> r == Failure(CheckUpload(file).value)
      ensures CheckUpload(file).None? ==>
        var fileName := StoredName(uuid, file.originalFilename, cleanPath);
        && (Contains(fileName, "..") || !copy(Resolve(root, ParsePath(fileName))) ==> r == Failure(StoreFailure(fileName)))
        && (!Contains(fileName, "..") && copy(Resolve(root, ParsePath(fileName))) ==>
              r.Success? && r.value == MediaRecord(r.value.id, file.originalFilename, file.contentType, fileName, uploaderId))
      ensures r.Failure? ==> media == old(media) && saveLog == old(saveLog)
      ensures r.Success? ==>
        && r.value.id.Some? && r.value.id.value !in old(media)
        && media == old(media)[r.value.id.value := r.value]
        && saveLog == old(saveLog) + [r.value]
    {
      if file.size > MaxUploadBytes {
        return Failure(TooLarge);
      }
      var originalFilename := file.originalFilename;
      var contentType := file.contentType;
      var isValidImage := false;
      if contentType.Some? && StartsWith(contentType.value, "image/") {
        isValidImage := true;
      }
      if !isValidImage && originalFilename.Some? {
        var lowerName := Lower(originalFilename.value);
        ExtensionList(originalFilename.value);
        if EndsWith(lowerName, ".jpg") || EndsWith(lowerName, ".jpeg")
          || EndsWith(lowerName, ".png") || EndsWith(lowerName, ".gif")
          || EndsWith(lowerName, ".webp") || EndsWith(lowerName, ".bmp")
        {
          isValidImage := true;
        }
      }
      assert isValidImage == IsImage(file);
      if !isValidImage {
        return Failure(NotAnImage);
      }
      var fileName := StoredName(uuid, originalFilename, cleanPath);
      if Contains(fileName, "..") {
        return Failure(StoreFailure(fileName));
      }
      var targetLocation := Resolve(root, ParsePath(fileName));
      if !copy(targetLocation) {
        return Failure(StoreFailure(fileName));
      }
      var record := MediaRecord(None, originalFilename, contentType, fileName, uploaderId);
      var saved := Save(record);
      r := Success(saved);
    }

    /** getMedia */
    method GetMedia(id: string) returns (r: Result<MediaRecord, Fault>)
      ensures id !in media ==> r == Failure(MediaNotFound)
      ensures id in media ==> r == Success(media[id])
    {
      if id !in media {
        return Failure(MediaNotFound);
      }
      r := Success(media[id]);
    }

    /** getMediaData: the bytes of the file the stored path leads to. */
    method GetMediaData(id: string, present: Path -> bool, read: Path -> seq<byte>) returns (r: Result<seq<byte>, Fault>)
      ensures id !in media ==> r == Failure(MediaNotFound)
      ensures id in media ==>
        var located := ResolveStored(root, media[id].filePath, present);
        r == if located.Success? then Success(read(located.value)) else Failure(located.error)
    {
      var found := GetMedia(id);
      if found.Failure? {
        return Failure(found.error);
      }
      var storedPath := found.value.filePath;
      var storedPathObj := ParsePath(storedPath);
      var filePath;
      if storedPathObj.absolute {
        if present(storedPathObj) {
          filePath := storedPathObj;
        } else {
          var filename := FileName(storedPathObj);
          if filename.None? {
            return Failure(NullPointerFault);
          }
          filePath := Resolve(root, ParsePath(filename.value));
        }
      } else {
        filePath := Resolve(root, storedPathObj);
      }
      if !present(filePath) {
        return Failure(IOFault("File not found at " + PathString(filePath)));
      }
      r := Success(read(filePath));
    }
  }

  /** What an upload stores reads back from the storage root: a prefix without a
      leading separator makes the stored name relative, so it resolves under the
      root, and the ".." check leaves no parent step in it. */
  lemma UploadedNameResolvesUnderRoot(root: Path, uuid: string, originalFilename: Option<string>,
                                      cleanPath: string -> string, present: Path -> bool)
    requires uuid != [] && uuid[0] != '/'
    requires !Contains(StoredName(uuid, originalFilename, cleanPath), "..")
    ensures var name := StoredName(uuid, originalFilename, cleanPath);
      var p := Path(root.absolute, root.names + ParsePath(name).names);
      && !ParsePath(name).absolute
      && ".." !in ParsePath(name).names
      && ResolveStored(root, name, present) == if present(p) then Success(p) else Failure(IOFault("File not found at " + PathString(p)))
  {
    var name := StoredName(uuid, originalFilename, cleanPath);
    assert name[0] == uuid[0];
    NoParentStep(name);
    ResolveBranches(root, name, present);
  }
}
