/**
 * `baseName(input, ext)` from src/utils/path.ts: the last component of a
 * POSIX or Windows path, optionally with a matching extension removed.
 *
 * Absolute URLs (`scheme://…`) are handed to the platform's URL parser;
 * that parser is not part of this model, so its outcome is a parameter:
 * `urlName` is the decoded last path segment it produces, or `None` when
 * `new URL(input)` throws and the code falls back to path handling.
 */
module Path {
  import opened Json
  import opened Text

  predicate IsAsciiLetter(c: char) {
    'a' <= c <= 'z' || 'A' <= c <= 'Z'
  }

  /** A character of `[a-zA-Z\d+\-.]`. */
  predicate IsSchemeChar(c: char) {
    IsAsciiLetter(c) || '0' <= c <= '9' || c == '+' || c == '-' || c == '.'
  }

  /** From index `i` on: scheme characters, then `://`. */
  predicate SchemeTail(s: string, i: nat)
    decreases |s| - i
  {
    if i + 3 <= |s| && s[i..i + 3] == "://" then true
    else if i < |s| && IsSchemeChar(s[i]) then SchemeTail(s, i + 1)
    else false
  }

  /** `/^[a-zA-Z][a-zA-Z\d+\-.]*:\/\//.test(s)`. */
  predicate IsAbsoluteUrl(s: string) {
    |s| > 0 && IsAsciiLetter(s[0]) && SchemeTail(s, 1)
  }

  /** `s.replace(/\\/g, '/')`. */
  function Slashed(s: string): (r: string)
    ensures |r| == |s| && '\\' !in r
    ensures forall i :: 0 <= i < |s| ==> r[i] == (if s[i] == '\\' then '/' else s[i])
  {
    seq(|s|, i requires 0 <= i < |s| => if s[i] == '\\' then '/' else s[i])
  }

  /** `s.replace(/\/+$/g, '')`. */
  function TrimTrailingSlashes(s: string): (r: string)
    ensures |r| <= |s| && r == s[..|r|]
    ensures r == [] || r[|r| - 1] != '/'
    ensures forall i :: |r| <= i < |s| ==> s[i] == '/'
  {
    if |s| > 0 && s[|s| - 1] == '/' then TrimTrailingSlashes(s[..|s| - 1]) else s
  }

  /** `parts[parts.length - 1]` of `s.split('/')`: the text after the last `/`. */
  function LastSegment(s: string): (r: string)
    ensures |r| <= |s| && r == s[|s| - |r|..]
    ensures '/' !in r
    ensures |r| < |s| ==> s[|s| - |r| - 1] == '/'
  {
    if |s| == 0 || s[|s| - 1] == '/' then ""
    else
      var r := LastSegment(s[..|s| - 1]) + [s[|s| - 1]];
      assert s[..|s| - 1][|s| - 1 - (|r| - 1)..] == s[|s| - |r|..|s| - 1];
      r
  }

  /** The name the path-like branch of `baseName` produces. */
  function PathName(input: string): string {
    LastSegment(TrimTrailingSlashes(Slashed(input)))
  }

  /** `ext.startsWith('.') ? ext : '.' + ext`. */
  function NormalizeExt(ext: string): (r: string)
    ensures |r| >= 1 && r[0] == '.'
    ensures EndsWith(r, ext)
  {
    if StartsWith(ext, ".") then ext else "." + ext
  }

  /** Drops `extNorm` from the end of `name` when `name` ends with it, ignoring ASCII case. */
  function StripExt(name: string, extNorm: string): string {
    if EndsWith(Lower(name), Lower(extNorm)) then name[..|name| - |extNorm|] else name
  }

  /**
   * `baseName(input, ext)`; `ext == ""` stands for an absent or empty
   * extension, both of which the source treats as "do not strip".
   */
  function BaseName(input: string, ext: string, urlName: Option<string>): (r: string)
    ensures input == "" ==> r == ""
  {
    if input == "" then ""
    else
      var name := if IsAbsoluteUrl(input) && urlName.Some? then urlName.value else PathName(input);
      if ext != "" then StripExt(name, NormalizeExt(ext)) else name
  }

  /** Every character of a prefix of `s` is a character of `s`. */
  lemma PrefixCharsFrom(s: string, n: nat)
    requires n <= |s|
    ensures forall c :: c in s[..n] ==> c in s
  {
    forall c | c in s[..n] ensures c in s {
      var i :| 0 <= i < n && s[..n][i] == c;
      assert s[i] == c;
    }
  }

  /** Every character of a suffix of `s` is a character of `s`. */
  lemma SuffixCharsFrom(s: string, n: nat)
    requires n <= |s|
    ensures forall c :: c in s[n..] ==> c in s
  {
    forall c | c in s[n..] ensures c in s {
      var i :| 0 <= i < |s| - n && s[n..][i] == c;
      assert s[n + i] == c;
    }
  }

  /** On a path (not `scheme://…`), the result never contains a separator. */
  lemma PathResultHasNoSeparator(input: string, ext: string, urlName: Option<string>)
    requires !IsAbsoluteUrl(input)
    ensures '/' !in BaseName(input, ext, urlName) && '\\' !in BaseName(input, ext, urlName)
  {
    if input != "" {
      var slashed := Slashed(input);
      var trimmed := TrimTrailingSlashes(slashed);
      var name := LastSegment(trimmed);
      PrefixCharsFrom(slashed, |trimmed|);
      SuffixCharsFrom(trimmed, |trimmed| - |name|);
      assert '\\' !in name;
      if ext != "" {
        var e := NormalizeExt(ext);
        if EndsWith(Lower(name), Lower(e)) {
          PrefixCharsFrom(name, |name| - |e|);
        }
      }
    }
  }

  /**
   * On a path, with no extension to strip, the result is the text after the
   * last `/` once backslashes became slashes and trailing slashes went.
   */
  lemma PathResultIsLastComponent(input: string, urlName: Option<string>)
    requires !IsAbsoluteUrl(input)
    ensures var r := BaseName(input, "", urlName);
            var t := TrimTrailingSlashes(Slashed(input));
            EndsWith(t, r) && '/' !in r && (|r| < |t| ==> t[|t| - |r| - 1] == '/')
  {
  }

  /** A Windows drive path: a letter, `:` and a backslash, as in `C:\\dir\\f.ts`. */
  predicate IsDrivePath(s: string) {
    |s| >= 3 && IsAsciiLetter(s[0]) && s[1] == ':' && s[2] == '\\'
  }

  /** The URL test never takes a drive path for `scheme://`. */
  lemma DrivePathIsNotUrl(s: string)
    requires IsDrivePath(s)
    ensures !IsAbsoluteUrl(s)
  {
    if |s| >= 4 {
      assert s[1..4][1] == s[2];
    }
    assert !IsSchemeChar(s[1]);
  }

  /** No position of a suffix free of `c` holds `c`. */
  lemma CharFreeSuffix(t: string, r: string, c: char)
    requires |r| <= |t| && r == t[|t| - |r|..] && c !in r
    ensures forall j :: |t| - |r| <= j < |t| ==> t[j] != c
  {
    forall j | |t| - |r| <= j < |t| ensures t[j] != c {
      assert t[j] == r[j - (|t| - |r|)];
    }
  }

  /**
   * A path that does not end in a separator but holds one has as its name
   * the non-empty text after its last `/` or `\\`.
   */
  lemma PathNameAfterLastSeparator(s: string, k: nat)
    requires k < |s| - 1 && (s[k] == '/' || s[k] == '\\')
    requires s[|s| - 1] != '/' && s[|s| - 1] != '\\'
    ensures var r := PathName(s);
            r != [] && |r| < |s| && r == s[|s| - |r|..] && '/' !in r && '\\' !in r
            && (s[|s| - |r| - 1] == '/' || s[|s| - |r| - 1] == '\\')
  {
    var t := Slashed(s);
    assert TrimTrailingSlashes(t) == t;
    var r := LastSegment(t);
    assert r == PathName(s);
    assert r == LastSegment(t[..|t| - 1]) + [t[|t| - 1]];
    CharFreeSuffix(t, r, '/');
    assert t[k] == '/';
    assert k < |t| - |r|;
    SuffixCharsFrom(t, |t| - |r|);
    forall i | |s| - |r| <= i < |s| ensures s[i] == t[i] {
    }
  }

  /**
   * A drive path always takes the path branch, whatever the URL parser
   * would say. When it does not end in a separator, its name is the
   * non-empty text after its last `/` or `\\`.
   */
  lemma DrivePathTakesPathBranch(s: string, ext: string, urlName: Option<string>)
    requires IsDrivePath(s)
    ensures BaseName(s, ext, urlName) ==
              if ext != "" then StripExt(PathName(s), NormalizeExt(ext)) else PathName(s)
    ensures s[|s| - 1] != '/' && s[|s| - 1] != '\\' ==>
              var r := PathName(s);
              r != [] && |r| < |s| && r == s[|s| - |r|..] && '/' !in r && '\\' !in r
              && (s[|s| - |r| - 1] == '/' || s[|s| - |r| - 1] == '\\')
  {
    DrivePathIsNotUrl(s);
    if s[|s| - 1] != '/' && s[|s| - 1] != '\\' {
      PathNameAfterLastSeparator(s, 2);
    }
  }

  /**
   * The drive path `C:\\dir\\f.ts` is named `f.ts`: by the general lemma,
   * the text after its last separator.
   */
  lemma WindowsPathName()
    ensures PathName("C:\\dir\\f.ts") == "f.ts"
  {
    var s := "C:\\dir\\f.ts";
    PathNameAfterLastSeparator(s, 6);
    var r := PathName(s);
    CharFreeSuffix(s, r, '\\');
    assert s[6] == '\\';
    var m := |s| - |r| - 1;
    assert 6 <= m;
    assert m != 7 && m != 8 && m != 9;
    assert r == s[7..];
  }

  /** Stripping `ts` from `f.ts` leaves `f`. */
  lemma WindowsPathExtension()
    ensures StripExt("f.ts", NormalizeExt("ts")) == "f"
  {
    assert NormalizeExt("ts") == ".ts";
    assert Lower("f.ts") == "f.ts";
    assert Lower(".ts") == ".ts";
  }

  /** A drive-letter path is not mistaken for a URL and yields its file name. */
  lemma WindowsPathTakesPathBranch(urlName: Option<string>)
    ensures !IsAbsoluteUrl("C:\\dir\\f.ts")
    ensures BaseName("C:\\dir\\f.ts", "", urlName) == "f.ts"
    ensures BaseName("C:\\dir\\f.ts", "ts", urlName) == "f"
  {
    DrivePathIsNotUrl("C:\\dir\\f.ts");
    WindowsPathName();
    WindowsPathExtension();
  }

  /**
   * Extension stripping: with a matching (case-insensitive) extension the
   * name loses exactly the normalised extension's length; otherwise it is
   * unchanged. An extension without a dot is matched with one prepended.
   */
  lemma ExtensionStripping(name: string, ext: string)
    requires ext != ""
    ensures var e := NormalizeExt(ext);
            var r := StripExt(name, e);
            (EndsWith(Lower(name), Lower(e)) ==> |r| == |name| - |e| && name == r + name[|r|..])
            && (!EndsWith(Lower(name), Lower(e)) ==> r == name)
            && (ext[0] != '.' ==> e == "." + ext)
  {
  }
}
