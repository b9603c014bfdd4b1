/** The html asset filter of the ahead-of-time Nitro compiler
    (`NitroAOT.FindHtmlAssets`): from a set of changed asset paths it collects
    the ones naming .html or .htm files into a list created on first use. */
module HtmlAssets {
  import opened Wrappers

  /** Lower-casing of one character (ASCII letters only). */
  function LowerChar(c: char): char
  {
    if 'A' <= c <= 'Z' then (c as int + 32) as char else c
  }

  function Lower(s: string): (r: string)
    ensures |r| == |s|
    ensures forall i :: 0 <= i < |s| ==> r[i] == LowerChar(s[i])
  {
    seq(|s|, i requires 0 <= i < |s| => LowerChar(s[i]))
  }

  predicate EndsWith(s: string, suffix: string)
  {
    |suffix| <= |s| && s[|s| - |suffix|..] == suffix
  }

  /** A path names an html file when, lower-cased, it ends in ".html" or ".htm". */
  predicate IsHtmlPath(path: string)
  {
    var lower := Lower(path);
    EndsWith(lower, ".html") || EndsWith(lower, ".htm")
  }

  /** The html paths of `files`, original spelling kept, in input order. */
  function HtmlPaths(files: seq<string>): seq<string>
  {
    if files == [] then []
    else (if IsHtmlPath(files[0]) then [files[0]] else []) + HtmlPaths(files[1..])
  }

  /** The list after a search: a null list stays null unless something matched. */
  function Collected(fileSet: Option<seq<string>>, found: Option<seq<string>>): Option<seq<string>>
  {
    var hits := if fileSet.Some? then HtmlPaths(fileSet.value) else [];
    if hits == [] then found
    else Some((if found.Some? then found.value else []) + hits)
  }

  lemma {:induction false} HtmlPathsAppend(a: seq<string>, b: seq<string>)
    ensures HtmlPaths(a + b) == HtmlPaths(a) + HtmlPaths(b)
  {
    if a != [] {
      assert (a + b)[1..] == a[1..] + b;
      HtmlPathsAppend(a[1..], b);
    } else {
      assert a + b == b;
    }
  }

  /** `FindHtmlAssets`: a null or empty file set leaves the list as it was;
      otherwise every path that names an html file is appended, unchanged and
      in order, after what the list already held, and the list is created only
      when the first match is found. */
  method FindHtmlAssets(fileSet: Option<seq<string>>, allFoundFiles: Option<seq<string>>)
    returns (found: Option<seq<string>>)
    ensures fileSet.None? || fileSet.value == [] ==> found == allFoundFiles
    ensures found == Collected(fileSet, allFoundFiles)
  {
    found := allFoundFiles;
    if fileSet.None? || |fileSet.value| == 0 {
      return;
    }
    var files := fileSet.value;
    var i := 0;
    while i < |files|
      invariant 0 <= i <= |files|
      invariant found == Collected(Some(files[..i]), allFoundFiles)
    {
      CollectedStep(files, i, allFoundFiles);
      var filePath := Lower(files[i]);
      if EndsWith(filePath, ".html") || EndsWith(filePath, ".htm") {
        if found.None? {
          found := Some([]);
        }
        found := Some(found.value + [files[i]]);
      }
      i := i + 1;
    }
    assert files[..i] == files;
  }

  /** One more path either extends the collected list by itself or leaves it. */
  lemma CollectedStep(files: seq<string>, i: nat, found: Option<seq<string>>)
    requires i < |files|
    ensures var now := Collected(Some(files[..i]), found);
            Collected(Some(files[..i + 1]), found) ==
              if IsHtmlPath(files[i]) then Some((if now.Some? then now.value else []) + [files[i]]) else now
  {
    HtmlPathsAppend(files[..i], [files[i]]);
    assert files[..i + 1] == files[..i] + [files[i]];
    assert [files[i]][1..] == [];
    var prior := if found.Some? then found.value else [];
    var before := HtmlPaths(files[..i]);
    var hit := if IsHtmlPath(files[i]) then [files[i]] else [];
    assert HtmlPaths([files[i]]) == hit + HtmlPaths([]);
    assert HtmlPaths(files[..i + 1]) == before + hit;
    if IsHtmlPath(files[i]) {
      assert (prior + before) + hit == prior + (before + hit);
      assert [] + hit == hit;
    } else {
      assert before + hit == before;
    }
  }

  /** The filter keeps exactly the html paths: a path is collected if and only
      if it is in the set and names an html file. */
  lemma {:induction false} HtmlPathsMembers(files: seq<string>, p: string)
    ensures p in HtmlPaths(files) <==> p in files && IsHtmlPath(p)
  {
    if files != [] {
      HtmlPathsMembers(files[1..], p);
      assert files == [files[0]] + files[1..];
    }
  }

  /** Filtering twice changes nothing. */
  lemma {:induction false} HtmlPathsIdempotent(files: seq<string>)
    ensures HtmlPaths(HtmlPaths(files)) == HtmlPaths(files)
  {
    if files != [] {
      var head := if IsHtmlPath(files[0]) then [files[0]] else [];
      HtmlPathsAppend(head, HtmlPaths(files[1..]));
      HtmlPathsIdempotent(files[1..]);
      if head != [] {
        assert HtmlPaths(head) == head by {
          assert head[1..] == [];
        }
      }
    }
  }

  /** Searching one set and then another collects what one search over both
      would: the three searches over imported, moved and moved-from assets
      build a single list. */
  lemma CollectedComposes(a: seq<string>, b: seq<string>, found: Option<seq<string>>)
    ensures Collected(Some(b), Collected(Some(a), found)) == Collected(Some(a + b), found)
  {
    HtmlPathsAppend(a, b);
    var prior := if found.Some? then found.value else [];
    assert (prior + HtmlPaths(a)) + HtmlPaths(b) == prior + (HtmlPaths(a) + HtmlPaths(b));
    assert HtmlPaths(a) + [] == HtmlPaths(a);
    assert [] + HtmlPaths(b) == HtmlPaths(b);
  }

  /** The test is blind to letter case: a path whose extension spells `.html`
      or `.htm` in any mix of cases is collected, in its original spelling. */
  lemma AnyCaseExtensionMatches(stem: string, ext: string)
    requires Lower(ext) == ".html" || Lower(ext) == ".htm"
    ensures IsHtmlPath(stem + ext)
    ensures HtmlPaths([stem + ext]) == [stem + ext]
  {
    assert Lower(stem + ext)[|stem|..] == Lower(ext);
    assert [stem + ext][1..] == [];
  }
}
