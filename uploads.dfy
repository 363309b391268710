/** The upload filters of `server/routes/posts.js` and `server/routes/users.js`:
    Node's `path.extname` and the `checkFileType` predicates both routes hand to
    multer, built from a regular expression of literal alternatives. */
module Uploads {
  import opened Wrappers
  import opened Seqs
  import opened Strings

  /** A file part as multer sees it before storing it. */
  datatype Upload = Upload(originalName: string, mimetype: string, size: int)

  /** multer's `limits: { fileSize: 50000000 }` in both routes. */
  const MAX_FILE_SIZE := 50000000

  /** `/jpeg|jpg|png|gif|mp3|mpeg|wav/` of the post route. */
  const POST_TYPES: seq<string> := ["jpeg", "jpg", "png", "gif", "mp3", "mpeg", "wav"]

  /** `/jpeg|jpg|png|gif/` of the profile route. */
  const IMAGE_TYPES: seq<string> := ["jpeg", "jpg", "png", "gif"]

  /** `path.extname` of a bare file name (no directory part): from the last `'.'`
      to the end, or empty when there is no dot, when the dot opens the name, or
      for the name `".."`. */
  function Extname(name: string): (ext: string)
    ensures ext == [] || (ext[0] == '.' && '.' !in ext[1..])
    ensures |ext| <= |name| && ext == name[|name| - |ext|..]
    ensures (forall k :: 0 <= k < |name| ==> name[k] != '.') ==> ext == []
  {
    var dot := LastIndexOf(name, '.');
    if dot <= 0 || name == ".." then [] else name[dot..]
  }

  /** `checkFileType` for the given alternatives: the lower-cased extension and
      the mimetype as sent (not lower-cased) each contain one of them. */
  function CheckFileType(types: seq<string>, file: Upload): (ok: bool)
    ensures ok && (forall p :: p in types ==> p != "") ==> Extname(file.originalName) != "" && file.mimetype != ""
  {
    MatchesAny(ToLower(Extname(file.originalName)), types) && MatchesAny(file.mimetype, types)
  }

  /** What multer answers for one file part: nothing (stored), or the middleware
      error the route then turns into status 400. */
  datatype FileError = TooLarge | WrongType(message: string)

  function Screen(types: seq<string>, message: string, file: Upload): (r: Option<FileError>)
    ensures r.None? <==> CheckFileType(types, file) && file.size <= MAX_FILE_SIZE
  {
    if !CheckFileType(types, file) then Some(WrongType(message))
    else if file.size > MAX_FILE_SIZE then Some(TooLarge)
    else None
  }

  /** Every file the profile route accepts the post route accepts too. */
  lemma ImageTypesArePostTypes(file: Upload)
    ensures CheckFileType(IMAGE_TYPES, file) ==> CheckFileType(POST_TYPES, file)
  {
    MatchesAnyMonotone(ToLower(Extname(file.originalName)), IMAGE_TYPES, POST_TYPES);
    MatchesAnyMonotone(file.mimetype, IMAGE_TYPES, POST_TYPES);
  }

  /** A text without lower-case letters matches no alternative starting with one. */
  lemma {:induction false} NoLowerNoMatch(s: string, types: seq<string>)
    requires forall k :: 0 <= k < |s| ==> !('a' <= s[k] <= 'z')
    requires forall p :: p in types ==> |p| > 0 && 'a' <= p[0] <= 'z'
    ensures !MatchesAny(s, types)
  {
    forall p, i | p in types && 0 <= i <= |s| ensures !(p <= s[i..]) {
    }
  }

  /** The extension is lower-cased before matching ... */
  lemma ExtensionCaseIgnored()
    ensures CheckFileType(POST_TYPES, Upload("Cover.JPG", "image/jpeg", 1))
  {
    LastIndexOfAt("Cover.JPG", '.', 5);
    assert Extname("Cover.JPG") == ".JPG";
    var lowered := ToLower(".JPG");
    assert lowered == ".jpg";
    assert "jpg" <= lowered[1..];
    assert Contains(lowered, "jpg");
    assert "jpg" in POST_TYPES;
    assert "jpeg" <= "image/jpeg"[6..];
    assert Contains("image/jpeg", "jpeg");
    assert "jpeg" in POST_TYPES;
  }

  /** ... the mimetype is not. */
  lemma MimetypeCaseMatters()
    ensures !CheckFileType(POST_TYPES, Upload("cover.jpg", "IMAGE/JPEG", 1))
  {
    NoLowerNoMatch("IMAGE/JPEG", POST_TYPES);
  }

  /** The pattern is unanchored: an extension merely containing an allowed type passes. */
  lemma SubstringExtensionAccepted()
    ensures CheckFileType(IMAGE_TYPES, Upload("x.pngs", "image/png", 1))
  {
    LastIndexOfAt("x.pngs", '.', 1);
    assert Extname("x.pngs") == ".pngs";
    var lowered := ToLower(".pngs");
    assert lowered == ".pngs";
    assert "png" <= lowered[1..];
    assert Contains(lowered, "png");
    assert "png" <= "image/png"[6..];
    assert Contains("image/png", "png");
    assert "png" in IMAGE_TYPES;
  }

  /** A name whose only dot opens it has no extension, so it is refused. */
  lemma DotFileRefused(mimetype: string, size: int)
    ensures !CheckFileType(POST_TYPES, Upload(".png", mimetype, size))
  {
    LastIndexOfAt(".png", '.', 0);
    var lowered := ToLower(Extname(".png"));
    assert lowered == [];
    forall p | p in POST_TYPES ensures !Contains(lowered, p) {
      assert |p| > 0;
    }
  }
}
