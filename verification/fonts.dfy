/** Font file resolution (`font_utils`): a closed allow-list of font names, a
    default, and a fallback chain that only fails when the default file itself is
    missing. The filesystem is the set of paths that name existing files. */
module Fonts {
  import opened Base

  /** `AVAILABLE_FONTS`. */
  const AvailableFonts: set<string> :=
    {"Anton-Regular.ttf", "ComicSansMS.ttf", "Roboto-Regular.ttf", "Impact.ttf", "Arial.ttf"}

  /** `DEFAULT_FONT`. */
  const DefaultFont: string := "Arial.ttf"

  datatype FontError = DefaultFontMissing(path: string)

  /** `os.path.join(dir, name)` on POSIX for two components. */
  function PathJoin(dir: string, name: string): string
  {
    if |name| > 0 && name[0] == '/' then name
    else if |dir| == 0 || dir[|dir| - 1] == '/' then dir + name
    else dir + "/" + name
  }

  /** `os.path.basename(path)` on POSIX: what follows the last '/'. */
  function Basename(path: string): (b: string)
    ensures '/' !in b
    decreases |path|
  {
    if |path| == 0 || path[|path| - 1] == '/' then ""
    else Basename(path[..|path| - 1]) + [path[|path| - 1]]
  }

  /** The `fonts` directory next to the module, `moduleDir` being the module's own directory. */
  function FontsDir(moduleDir: string): string
  {
    PathJoin(moduleDir, "fonts")
  }

  /** The path `get_font_path` looks at for `name`. */
  function FontPath(moduleDir: string, name: string): string
  {
    PathJoin(FontsDir(moduleDir), name)
  }

  /** `get_font_path(font_name)`: `files` holds the paths of the existing files. */
  function GetFontPath(moduleDir: string, files: set<string>, name: string): (r: Result<string, FontError>)
    ensures r.Success? ==> r.value in files
    ensures r.Success? ==>
      || (r.value == FontPath(moduleDir, name) && name in AvailableFonts)
      || r.value == FontPath(moduleDir, DefaultFont)
    ensures name in AvailableFonts && FontPath(moduleDir, name) in files ==> r == Success(FontPath(moduleDir, name))
    ensures r.Failure? <==>
      && FontPath(moduleDir, DefaultFont) !in files
      && (name !in AvailableFonts || FontPath(moduleDir, name) !in files)
  {
    var chosen := if name == "" || name !in AvailableFonts then DefaultFont else name;
    var path := FontPath(moduleDir, chosen);
    if path in files then Success(path)
    else
      var fallback := FontPath(moduleDir, DefaultFont);
      if fallback in files then Success(fallback) else Failure(DefaultFontMissing(fallback))
  }

  /** The basename of a path ending in a '/'-free name is that name. */
  lemma {:induction false} BasenameAfterSlash(prefix: string, name: string)
    requires |prefix| == 0 || prefix[|prefix| - 1] == '/'
    requires '/' !in name
    ensures Basename(prefix + name) == name
    decreases |name|
  {
    if |name| == 0 {
      assert prefix + name == prefix;
    } else {
      var init := name[..|name| - 1];
      assert (prefix + name)[..|prefix + name| - 1] == prefix + init;
      BasenameAfterSlash(prefix, init);
      assert init + [name[|name| - 1]] == name;
    }
  }

  lemma BasenameJoin(dir: string, name: string)
    requires '/' !in name
    ensures Basename(PathJoin(dir, name)) == name
  {
    if |dir| == 0 || dir[|dir| - 1] == '/' {
      BasenameAfterSlash(dir, name);
    } else {
      assert dir + "/" + name == (dir + "/") + name;
      BasenameAfterSlash(dir + "/", name);
    }
  }

  /** Whatever `get_font_path` returns names an existing file whose basename is the
      requested font, when that font is allowed, or the default font. */
  lemma ResolvedBasename(moduleDir: string, files: set<string>, name: string)
    ensures var r := GetFontPath(moduleDir, files, name);
      r.Success? ==> r.value in files && (Basename(r.value) == DefaultFont || (name in AvailableFonts && Basename(r.value) == name))
  {
    BasenameJoin(FontsDir(moduleDir), DefaultFont);
    if name in AvailableFonts {
      assert name in {"Anton-Regular.ttf", "ComicSansMS.ttf", "Roboto-Regular.ttf", "Impact.ttf", "Arial.ttf"};
      BasenameJoin(FontsDir(moduleDir), name);
    }
  }

  /** A name outside the allow-list, the empty name included, resolves exactly as
      the default font does: it never raises on its own account. */
  lemma UnknownFontIsDefault(moduleDir: string, files: set<string>, name: string)
    requires name !in AvailableFonts
    ensures GetFontPath(moduleDir, files, name) == GetFontPath(moduleDir, files, DefaultFont)
  {
  }

  /** Python's `<` on strings: lexicographic by code point, a proper prefix first. */
  predicate Less(a: string, b: string)
    decreases |a|
  {
    if |a| == 0 then |b| > 0
    else if |b| == 0 then false
    else a[0] < b[0] || (a[0] == b[0] && Less(a[1..], b[1..]))
  }

  lemma {:induction false} LessAsymmetric(a: string, b: string)
    ensures Less(a, b) ==> !Less(b, a)
    decreases |a|
  {
    if |a| > 0 && |b| > 0 && a[0] == b[0] {
      LessAsymmetric(a[1..], b[1..]);
    }
  }

  /** Sorted ascending without duplicates. */
  ghost predicate StrictlySorted(s: seq<string>)
  {
    forall i, j :: 0 <= i < j < |s| ==> Less(s[i], s[j])
  }

  /** The allow-list's names in ascending order. */
  const SortedFontNames: seq<string> :=
    ["Anton-Regular.ttf", "Arial.ttf", "ComicSansMS.ttf", "Impact.ttf", "Roboto-Regular.ttf"]

  lemma SortedFontNamesAscend()
    ensures StrictlySorted(SortedFontNames)
  {
    var names := SortedFontNames;
    assert Less(names[0], names[1]) by {
      assert names[0][1..][0] < names[1][1..][0];
    }
    assert names[0][0] == names[1][0] == 'A' < names[2][0] == 'C' < names[3][0] == 'I' < names[4][0] == 'R';
  }

  lemma SortedFontNamesAreTheAllowList()
    ensures forall n :: n in SortedFontNames <==> n in AvailableFonts
    ensures |SortedFontNames| == |AvailableFonts|
  {
    assert forall n :: n in SortedFontNames <==> n in AvailableFonts;
    assert AvailableFonts == set n | n in SortedFontNames;
    SortedFontNamesAscend();
  }

  /** `list_available_fonts()`, i.e. `sorted(list(AVAILABLE_FONTS))`. */
  function ListAvailableFonts(): (names: seq<string>)
    ensures StrictlySorted(names)
    ensures forall n :: n in names <==> n in AvailableFonts
    ensures |names| == |AvailableFonts|
  {
    SortedFontNamesAscend();
    SortedFontNamesAreTheAllowList();
    SortedFontNames
  }

  /** Two strictly sorted lists with the same elements are the same list, so the
      listing above is the only sorted, duplicate-free listing of the allow-list. */
  lemma {:induction false} SortedUnique(s: seq<string>, t: seq<string>)
    requires StrictlySorted(s) && StrictlySorted(t)
    requires forall x :: x in s <==> x in t
    ensures s == t
    decreases |s|
  {
    assert |s| > 0 ==> s[0] in s && s[0] in t;
    assert |t| > 0 ==> t[0] in t && t[0] in s;
    if |s| > 0 {
      if s[0] != t[0] {
        assert s[0] in t;
        var j :| 0 <= j < |t| && t[j] == s[0];
        assert t[0] in t;
        assert t[0] in s;
        var k :| 0 <= k < |s| && s[k] == t[0];
        assert Less(t[0], s[0]) && Less(s[0], t[0]);
        LessAsymmetric(s[0], t[0]);
        assert false;
      }
      forall x
        ensures x in s[1..] <==> x in t[1..]
      {
        if x in s[1..] {
          var i :| 0 <= i < |s[1..]| && s[1..][i] == x;
          LessAsymmetric(s[0], x);
          assert x != s[0];
          assert x in t;
        }
        if x in t[1..] {
          var i :| 0 <= i < |t[1..]| && t[1..][i] == x;
          LessAsymmetric(t[0], x);
          assert x != t[0];
          assert x in s;
        }
      }
      SortedUnique(s[1..], t[1..]);
      assert s == [s[0]] + s[1..] && t == [t[0]] + t[1..];
    }
  }

  lemma ListIsTheSortedAllowList(t: seq<string>)
    requires StrictlySorted(t)
    requires forall n :: n in t <==> n in AvailableFonts
    ensures t == ListAvailableFonts()
  {
    SortedUnique(t, ListAvailableFonts());
  }
}
