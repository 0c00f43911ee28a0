/**
 * What both handlers do with a requested file: `Paths.get(root, file)` on a Unix file system, the
 * file system itself as an oracle of file contents, and the content type chosen from the name
 * (`determineContentType`, `getExtension`), which the two snapshots share except for ".ico".
 */
module FileTypes {
  import opened Outcomes
  import opened JavaText
  import opened Bytes

  // ---------------------------------------------------------------------------------------------
  // Paths and files.

  /** The configuration the handlers read, and `System.getProperty("user.home")`. */
  datatype Config = Config(rootDirectory: string, defaultPage: string, home: string)

  /** The files the server can read, by normalised path; a path not in the map does not exist. */
  datatype FileSystem = FileSystem(files: map<string, seq<byte>>)

  /** No two '/' in a row. */
  predicate NoDoubleSlash(s: string) {
    forall i | 0 <= i < |s| - 1 :: !(s[i] == '/' && s[i + 1] == '/')
  }

  /** Drops every '/' at the end, but keeps a lone "/" for a path made only of slashes. */
  function StripTrailingSlashes(s: string): (r: string)
    ensures |r| <= |s| && (s == [] <==> r == [])
    ensures r == "/" || r == [] || r[|r| - 1] != '/'
    ensures r != [] ==> r[0] == s[0]
    decreases |s|
  {
    if |s| == 0 then s
    else if s[|s| - 1] != '/' then s
    else if |s| == 1 then "/"
    else
      var t := StripTrailingSlashes(s[..|s| - 1]);
      if t == "/" then "/" else t
  }

  /** Collapses each run of '/' into one, keeping the first and the last char. */
  function CollapseSlashes(s: string): (r: string)
    ensures |r| <= |s| && NoDoubleSlash(r)
    ensures s != [] ==> r != [] && r[0] == s[0] && r[|r| - 1] == s[|s| - 1]
    decreases |s|
  {
    if |s| < 2 then s
    else if s[0] == '/' && s[1] == '/' then CollapseSlashes(s[1..])
    else [s[0]] + CollapseSlashes(s[1..])
  }

  /**
   * `Paths.get(first, more)`: the two joined by '/' unless more is empty, repeated slashes
   * collapsed, a trailing slash dropped; a NUL char makes the path invalid.
   */
  function PathsGet(first: string, more: string): (r: Result<string>)
    ensures r.Ok? ==> NoDoubleSlash(r.value) && (r.value == "/" || r.value == [] || r.value[|r.value| - 1] != '/')
  {
    var joined := if |more| == 0 then first else if |first| == 0 then more else first + "/" + more;
    if '\0' in joined then Err(InvalidPath)
    else Ok(CollapseSlashes(StripTrailingSlashes(joined)))
  }

  /** `String.replaceFirst("^~", home)`: a leading '~' becomes the home directory. */
  function ExpandHome(root: string, home: string): string {
    if |root| > 0 && root[0] == '~' then home + root[1..] else root
  }

  /** The file a GET or HEAD asks for: the default page for "/", the requested page otherwise. */
  function RequestedFile(page: string, defaultPage: string): string {
    if page == "/" then defaultPage else page
  }

  /** `Paths.get(correctedRootDirectory, requestedFile)`. */
  function FilePath(root: string, home: string, page: string, defaultPage: string): Result<string> {
    PathsGet(ExpandHome(root, home), RequestedFile(page, defaultPage))
  }

  // ---------------------------------------------------------------------------------------------
  // Content types.

  /** The line terminators that '.' in a Java regular expression does not match. */
  predicate IsRegexLineTerminator(c: char) {
    c == '\n' || c == '\r' || c == '\U{0085}' || c == '\U{2028}' || c == '\U{2029}'
  }

  /**
   * `name.matches(".*\\.(jpg|jpeg|png|gif|bmp)$")`: the whole name is a run of chars that are
   * not line terminators, then one of the five extensions behind a dot.
   */
  predicate IsImageName(name: string) {
    && (forall i | 0 <= i < |name| :: !IsRegexLineTerminator(name[i]))
    && (EndsWith(name, ".jpg") || EndsWith(name, ".jpeg") || EndsWith(name, ".png")
        || EndsWith(name, ".gif") || EndsWith(name, ".bmp"))
  }

  predicate IsImageExtension(ext: string) {
    ext == "jpg" || ext == "jpeg" || ext == "png" || ext == "gif" || ext == "bmp"
  }

  /** `getExtension(name)`: what follows the last '.', when that dot is not the first char. */
  function GetExtension(name: string): (ext: string)
    ensures |ext| <= |name|
  {
    var k := LastIndexOf(name, '.');
    if k > 0 then name[k + 1..] else ""
  }

  /**
   * `determineContentType(path)` on the lower-cased path: HTML, an image type named after the
   * extension, icoType for ".ico" (the two snapshots differ here), and bytes otherwise.
   */
  function ContentType(path: string, icoType: string): string {
    var name := ToLower(path);
    if EndsWith(name, ".html") || EndsWith(name, ".htm") then "text/html"
    else if IsImageName(name) then "image/" + GetExtension(name)
    else if EndsWith(name, ".ico") then icoType
    else "application/octet-stream"
  }

  // ---------------------------------------------------------------------------------------------
  // Properties.

  /** Collapsing changes nothing in a path with no double slash. */
  lemma {:induction false} CollapseNoDouble(s: string)
    requires NoDoubleSlash(s)
    ensures CollapseSlashes(s) == s
    decreases |s|
  {
    if |s| >= 2 {
      assert !(s[0] == '/' && s[1] == '/');
      CollapseNoDouble(s[1..]);
      assert s == [s[0]] + s[1..];
    }
  }

  /** Collapsing goes past a first char that is not '/'. */
  lemma CollapseAfterChar(c: char, t: string)
    requires c != '/'
    ensures CollapseSlashes([c] + t) == [c] + CollapseSlashes(t)
  {
    var s := [c] + t;
    assert s[1..] == t;
  }

  lemma NoDoubleSlashTail(a: string)
    requires a != [] && NoDoubleSlash(a)
    ensures NoDoubleSlash(a[1..])
  {
    forall i | 0 <= i < |a[1..]| - 1 ensures !(a[1..][i] == '/' && a[1..][i + 1] == '/') {
      assert a[1..][i] == a[i + 1] && a[1..][i + 1] == a[i + 2];
    }
  }

  /** Collapsing goes through a prefix that has no double slash and does not end in '/'. */
  lemma {:induction false} CollapseAfterPrefix(a: string, t: string)
    requires a != [] && a[|a| - 1] != '/' && NoDoubleSlash(a)
    ensures CollapseSlashes(a + t) == a + CollapseSlashes(t)
    decreases |a|
  {
    if |a| == 1 {
      assert a == [a[0]];
      CollapseAfterChar(a[0], t);
    } else {
      var s, b := a + t, a[1..];
      assert b[|b| - 1] == a[|a| - 1];
      assert s[0] == a[0] && s[1] == a[1] && s[1..] == b + t;
      assert !(a[0] == '/' && a[1] == '/');
      assert CollapseSlashes(s) == [a[0]] + CollapseSlashes(b + t);
      NoDoubleSlashTail(a);
      CollapseAfterPrefix(b, t);
      assert [a[0]] + (b + CollapseSlashes(t)) == ([a[0]] + b) + CollapseSlashes(t);
      assert a == [a[0]] + b;
    }
  }

  /**
   * A root with no trailing slash and an absolute page with none either: `Paths.get` puts the
   * page right after the root, the slash it adds between them absorbed by the page's own.
   */
  lemma PathsGetJoins(first: string, more: string)
    requires first != [] && first[|first| - 1] != '/' && NoDoubleSlash(first)
    requires |more| >= 2 && more[0] == '/' && more[|more| - 1] != '/' && NoDoubleSlash(more)
    requires '\0' !in first && '\0' !in more
    ensures PathsGet(first, more) == Ok(first + more)
  {
    var joined := first + "/" + more;
    assert '\0' !in joined by {
      forall i | 0 <= i < |joined| ensures joined[i] != '\0' {
        if i < |first| {
          assert joined[i] == first[i];
        } else if i > |first| {
          assert joined[i] == more[i - |first| - 1];
        }
      }
    }
    assert joined[|joined| - 1] == more[|more| - 1];
    assert StripTrailingSlashes(joined) == joined;
    assert joined == first + ("/" + more);
    CollapseAfterPrefix(first, "/" + more);
    assert ("/" + more)[1..] == more;
    CollapseNoDouble(more);
  }

  /** A root with no trailing slash and a relative name: `Paths.get` joins them with one '/'. */
  lemma PathsGetRelative(first: string, more: string)
    requires first != [] && first[|first| - 1] != '/' && NoDoubleSlash(first)
    requires more != [] && more[0] != '/' && more[|more| - 1] != '/' && NoDoubleSlash(more)
    requires '\0' !in first && '\0' !in more
    ensures PathsGet(first, more) == Ok(first + "/" + more)
  {
    var joined := first + "/" + more;
    assert '\0' !in joined by {
      forall i | 0 <= i < |joined| ensures joined[i] != '\0' {
        if i < |first| {
          assert joined[i] == first[i];
        } else if i > |first| {
          assert joined[i] == more[i - |first| - 1];
        }
      }
    }
    assert joined[|joined| - 1] == more[|more| - 1];
    assert StripTrailingSlashes(joined) == joined;
    assert joined == first + ("/" + more);
    CollapseAfterPrefix(first, "/" + more);
    var t := "/" + more;
    assert t[1..] == more && t[1] != '/';
    CollapseNoDouble(more);
    assert CollapseSlashes(t) == [t[0]] + CollapseSlashes(t[1..]);
  }

  /**
   * A request for "/" serves the default page from the root, after a leading '~' of the root is
   * replaced by the home directory: for a root and a default page as a configuration gives them
   * (the root normalised, the page a relative name), the file is the root, '/', and the page.
   */
  lemma DefaultPageServed(root: string, home: string, defaultPage: string)
    requires var r := ExpandHome(root, home);
      r != [] && r[|r| - 1] != '/' && NoDoubleSlash(r) && '\0' !in r
    requires defaultPage != [] && defaultPage[0] != '/' && defaultPage[|defaultPage| - 1] != '/'
    requires NoDoubleSlash(defaultPage) && '\0' !in defaultPage
    ensures FilePath(root, home, "/", defaultPage) == Ok(ExpandHome(root, home) + "/" + defaultPage)
    ensures |root| > 0 && root[0] == '~' ==>
      FilePath(root, home, "/", defaultPage) == Ok(home + root[1..] + "/" + defaultPage)
  {
    PathsGetRelative(ExpandHome(root, home), defaultPage);
  }

  /** The extension is what follows the last dot, when something comes before that dot. */
  lemma GetExtensionOf(base: string, ext: string)
    requires base != [] && '.' !in ext
    ensures GetExtension(base + "." + ext) == ext
  {
    var name := base + "." + ext;
    var k := LastIndexOf(name, '.');
    assert name[|base|] == '.';
    forall i | |base| < i < |name| ensures name[i] != '.' {
      assert name[i] == ext[i - |base| - 1];
    }
    assert name[|base| + 1..] == ext;
  }

  /** A name with no dot, or whose only dot is its first char, has no extension. */
  lemma NoExtension(name: string)
    requires forall i | 0 < i < |name| :: name[i] != '.'
    ensures GetExtension(name) == ""
  {
  }

  /** A name whose last char differs from the suffix's last char does not end with it. */
  lemma LastCharDiffers(s: string, suffix: string)
    requires s != [] && suffix != [] && s[|s| - 1] != suffix[|suffix| - 1]
    ensures !EndsWith(s, suffix)
  {
    if |suffix| <= |s| {
      assert s[|s| - |suffix|..][|suffix| - 1] != suffix[|suffix| - 1];
    }
  }

  lemma ToLowerAppend(a: string, b: string)
    ensures ToLower(a + b) == ToLower(a) + ToLower(b)
  {
  }

  /** Lower-casing keeps line terminators and makes no new ones. */
  lemma ToLowerKeepsTerminators(s: string)
    ensures forall i | 0 <= i < |s| :: IsRegexLineTerminator(ToLower(s)[i]) == IsRegexLineTerminator(s[i])
  {
  }

  /** Lower-casing base.ext lower-cases the two halves and keeps the dot. */
  lemma LowerOfDotted(base: string, ext: string)
    ensures ToLower(base + "." + ext) == ToLower(base) + ("." + ToLower(ext))
  {
    ToLowerAppend(base + ".", ext);
    ToLowerAppend(base, ".");
    assert ToLower(".") == ".";
  }

  /** The name base.ext holds a line terminator only where base or ext does. */
  lemma DottedTerminators(base: string, ext: string)
    requires forall i | 0 <= i < |base| :: !IsRegexLineTerminator(base[i])
    requires forall i | 0 <= i < |ext| :: !IsRegexLineTerminator(ext[i])
    ensures forall i | 0 <= i < |base + "." + ext| :: !IsRegexLineTerminator((base + "." + ext)[i])
  {
    var name := base + "." + ext;
    forall i | 0 <= i < |name| ensures !IsRegexLineTerminator(name[i]) {
      if i > |base| {
        assert name[i] == ext[i - |base| - 1];
      } else if i < |base| {
        assert name[i] == base[i];
      }
    }
  }

  /** A lower-case name ending in an image extension is an image name, and not an HTML one. */
  lemma ImageName(base: string, e: string)
    requires base != [] && IsImageExtension(e)
    requires forall i | 0 <= i < |base + "." + e| :: !IsRegexLineTerminator((base + "." + e)[i])
    ensures IsImageName(base + "." + e)
    ensures !EndsWith(base + "." + e, ".html") && !EndsWith(base + "." + e, ".htm")
    ensures GetExtension(base + "." + e) == e
  {
    var name := base + "." + e;
    assert name == base + ("." + e);
    assert EndsWith(name, "." + e);
    ImageSuffix(name, e);
    assert name[|name| - 1] == e[|e| - 1];
    NotHtml(name, e);
    GetExtensionOf(base, e);
  }

  lemma ImageSuffix(name: string, e: string)
    requires IsImageExtension(e) && EndsWith(name, "." + e)
    ensures EndsWith(name, ".jpg") || EndsWith(name, ".jpeg") || EndsWith(name, ".png")
            || EndsWith(name, ".gif") || EndsWith(name, ".bmp")
  {
    if e == "jpg" {
      assert "." + e == ".jpg";
    } else if e == "jpeg" {
      assert "." + e == ".jpeg";
    } else if e == "png" {
      assert "." + e == ".png";
    } else if e == "gif" {
      assert "." + e == ".gif";
    } else {
      assert "." + e == ".bmp";
    }
  }

  /** An image name ends in g, f or p, so it ends in neither ".html" nor ".htm". */
  lemma NotHtml(name: string, e: string)
    requires IsImageExtension(e) && name != [] && name[|name| - 1] == e[|e| - 1]
    ensures !EndsWith(name, ".html") && !EndsWith(name, ".htm")
  {
    LastCharDiffers(name, ".html");
    LastCharDiffers(name, ".htm");
  }

  /**
   * A file named base.ext, with ext one of the image extensions in any case, is served as
   * "image/" and the lower-cased extension, provided its base holds no line terminator.
   */
  lemma ImageContentType(base: string, ext: string, icoType: string)
    requires base != [] && IsImageExtension(ToLower(ext))
    requires forall i | 0 <= i < |base| :: !IsRegexLineTerminator(base[i])
    ensures ContentType(base + "." + ext, icoType) == "image/" + ToLower(ext)
  {
    var e := ToLower(ext);
    var lowBase := ToLower(base);
    LowerOfDotted(base, ext);
    assert ToLower(base + "." + ext) == lowBase + "." + e;
    ToLowerKeepsTerminators(base);
    ToLowerKeepsTerminators(ext);
    forall i | 0 <= i < |e| ensures !IsRegexLineTerminator(e[i]) {
      assert e[i] in "jpegnifbmp";
    }
    DottedTerminators(lowBase, e);
    ImageName(lowBase, e);
  }

  /** A file name ending in ".html" or ".htm", in any case, is served as HTML. */
  lemma HtmlContentType(path: string, icoType: string)
    requires EndsWith(ToLower(path), ".html") || EndsWith(ToLower(path), ".htm")
    ensures ContentType(path, icoType) == "text/html"
  {
  }

  /** A name that merely contains a line break is not an image, whatever it ends in. */
  lemma LineBreakIsNotImage(path: string, icoType: string)
    requires exists i | 0 <= i < |path| :: path[i] == '\n'
    requires !EndsWith(ToLower(path), ".html") && !EndsWith(ToLower(path), ".htm") && !EndsWith(ToLower(path), ".ico")
    ensures ContentType(path, icoType) == "application/octet-stream"
  {
    var i :| 0 <= i < |path| && path[i] == '\n';
    assert ToLower(path)[i] == '\n';
  }

  /** ".ico" gets the snapshot's icon type. */
  lemma IconContentType(path: string, icoType: string)
    requires EndsWith(ToLower(path), ".ico")
    ensures ContentType(path, icoType) == icoType
  {
    var name := ToLower(path);
    assert name[|name| - 4..][3] == name[|name| - 1];
    LastCharDiffers(name, ".html");
    LastCharDiffers(name, ".htm");
    LastCharDiffers(name, ".jpg");
    LastCharDiffers(name, ".jpeg");
    LastCharDiffers(name, ".png");
    LastCharDiffers(name, ".gif");
    LastCharDiffers(name, ".bmp");
  }
}
