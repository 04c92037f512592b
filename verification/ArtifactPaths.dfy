/**
 Which paths may name a generated file: `safeArtifactPath` of src/lib/artifactIntegrity.ts
 with the `posix.normalize` it relies on.
 */
module ArtifactPaths {
  import opened Wrappers
  import opened JsText

  datatype PathError = InvalidPath | AbsolutePath | EscapingPath | SourcePath

  /** Dot segments of a relative path resolved against what has been kept so far. */
  function Resolve(segments: seq<string>, kept: seq<string>): seq<string> {
    if segments == [] then kept
    else
      var s := segments[0];
      if s == "" || s == "." then Resolve(segments[1..], kept)
      else if s == ".." && kept != [] && kept[|kept| - 1] != ".." then Resolve(segments[1..], kept[..|kept| - 1])
      else Resolve(segments[1..], kept + [s])
  }

  predicate EndsInSlash(path: string) {
    path != "" && path[|path| - 1] == '/'
  }

  /** `posix.normalize` on a relative path. */
  function Normalize(path: string): string {
    var core := Join(Resolve(Split(path, '/'), []), '/');
    if core == "" then (if EndsInSlash(path) then "./" else ".")
    else if EndsInSlash(path) then core + "/"
    else core
  }

  /** `path.replace(/^\.\//, "")`. */
  function StripDotSlash(path: string): string {
    if "./" <= path then path[2..] else path
  }

  predicate Contains(s: string, part: string) {
    exists i {:trigger s[i..]} :: 0 <= i <= |s| && part <= s[i..]
  }

  /** `^[A-Za-z]:\/`. */
  predicate DrivePath(path: string) {
    |path| >= 3 && ('A' <= path[0] <= 'Z' || 'a' <= path[0] <= 'z') && path[1] == ':' && path[2] == '/'
  }

  const SOURCE_PATHS: set<string> := {
    "src/agents/selfHealing.ts", "src/services/productionAutoDeploy.ts", "src/services/deployer.ts",
    "src/lib/artifactIntegrity.ts", "src/routers/projects.ts", "src/routes/hostedApps.ts",
    "src/routes/livePreview.ts", "src/db/schema.ts", "src/db.ts", "src/agents/pipeline.generated.ts",
    "src/services/build-worker.ts", "src/db/ensureSchema.ts", "scripts/assemble-pipeline.mjs",
    ".codex/coordination/project.yaml", ".sdlc/project.yaml"
  }

  predicate SourceFile(path: string) {
    || path in SOURCE_PATHS
    || "src/_core/" <= path || "src/agents/.pipeline_parts/" <= path
    || ".codex/coordination/" <= path || ".sdlc/runs/" <= path
  }

  predicate Escapes(normalized: string) {
    normalized == ".." || "../" <= normalized || Contains(normalized, "/../")
  }

  function SafePath(path: string): Result<string, PathError> {
    if path == "" || !Without(path, '\0') || !Without(path, '\\') then Err(InvalidPath)
    else if path[0] == '/' || DrivePath(path) then Err(AbsolutePath)
    else
      var normalized := Normalize(path);
      if Escapes(normalized) || normalized != StripDotSlash(path) then Err(EscapingPath)
      else if SourceFile(normalized) then Err(SourcePath)
      else Ok(normalized)
  }

  // ----- shape of normalized paths -----

  predicate PlainSegments(parts: seq<string>) {
    forall i :: 0 <= i < |parts| ==> parts[i] != "" && parts[i] != "." && Without(parts[i], '/')
  }

  lemma {:induction false} ResolvePlain(segments: seq<string>, kept: seq<string>)
    requires AllWithout(segments, '/') && PlainSegments(kept)
    ensures PlainSegments(Resolve(segments, kept))
    decreases |segments|
  {
    if segments != [] {
      var s := segments[0];
      assert AllWithout(segments[1..], '/');
      if s == "" || s == "." {
        ResolvePlain(segments[1..], kept);
      } else if s == ".." && kept != [] && kept[|kept| - 1] != ".." {
        ResolvePlain(segments[1..], kept[..|kept| - 1]);
      } else {
        ResolvePlain(segments[1..], kept + [s]);
      }
    }
  }

  /** A joined list of plain segments starts neither with a slash nor with `./`. */
  lemma JoinHead(parts: seq<string>)
    requires PlainSegments(parts) && parts != []
    ensures var core := Join(parts, '/');
            core != "" && core[0] != '/' && !("./" <= core)
            && (core[0] == '.' ==> |core| > 1 && core[1] != '/')
  {
    var core := Join(parts, '/');
    var first := parts[0];
    assert forall i :: 0 <= i < |first| ==> core[i] == first[i];
    if first[0] == '.' {
      assert first != ['.'];
      assert core[1] == first[1];
    }
  }

  lemma NormalizeShape(path: string)
    ensures Normalize(path) != "" && Normalize(path)[0] != '/'
    ensures "./" <= Normalize(path) ==> Normalize(path) == "./"
  {
    var parts := Resolve(Split(path, '/'), []);
    ResolvePlain(Split(path, '/'), []);
    if parts != [] {
      JoinHead(parts);
      var core := Join(parts, '/');
      assert (core + "/")[0] == core[0];
      assert |core| > 1 ==> (core + "/")[1] == core[1];
    }
  }

  /** A leading `./` makes no difference. */
  lemma NormalizeDotSlash(rest: string)
    requires rest != ""
    ensures Normalize("./" + rest) == Normalize(rest)
  {
    var path := "./" + rest;
    assert path == "." + ("/" + rest);
    SplitGlue(".", "/" + rest, '/');
    assert ("/" + rest)[1..] == rest;
    assert Split(path, '/') == ["."] + Split(rest, '/') by {
      assert "." + "" == ".";
    }
    assert (["."] + Split(rest, '/'))[1..] == Split(rest, '/');
    assert path[|path| - 1] == rest[|rest| - 1];
  }

  lemma SafePathIsNormal(path: string)
    requires SafePath(path).Ok?
    ensures Normalize(SafePath(path).value) == SafePath(path).value
    ensures var n := SafePath(path).value;
            n != "" && n[0] != '/' && Without(n, '\0') && Without(n, '\\') && ("./" <= n ==> n == "./")
  {
    var n := SafePath(path).value;
    NormalizeShape(path);
    if "./" <= path {
      assert path == "./" + n;
      NormalizeDotSlash(n);
    }
  }

  // ----- which paths are accepted -----

  /** Named segments between slashes, perhaps with a slash at the end; none of them a dot or two. */
  predicate PlainPath(path: string) {
    var parts := Split(path, '/');
    && path != ""
    && forall i :: 0 <= i < |parts| ==>
         parts[i] != "." && parts[i] != ".." && (parts[i] == "" ==> 0 < i == |parts| - 1)
  }

  /** The dot segments a normalized path keeps stand in front. */
  predicate DotsInFront(parts: seq<string>) {
    forall i, j :: 0 <= i < j < |parts| && parts[j] == ".." ==> parts[i] == ".."
  }

  lemma {:induction false} ResolveDots(segments: seq<string>, kept: seq<string>)
    requires DotsInFront(kept)
    ensures DotsInFront(Resolve(segments, kept))
    decreases |segments|
  {
    if segments != [] {
      var s := segments[0];
      if s == "" || s == "." {
        ResolveDots(segments[1..], kept);
      } else if s == ".." && kept != [] && kept[|kept| - 1] != ".." {
        ResolveDots(segments[1..], kept[..|kept| - 1]);
      } else {
        ResolveDots(segments[1..], kept + [s]);
      }
    }
  }

  predicate Named(segment: string) {
    segment != "" && segment != "." && segment != ".."
  }

  /** Named segments resolve to themselves. */
  lemma {:induction false} ResolveKeeps(segments: seq<string>, kept: seq<string>)
    requires forall i :: 0 <= i < |segments| ==> Named(segments[i])
    ensures Resolve(segments, kept) == kept + segments
  {
    if segments == [] {
      assert kept + segments == kept;
    } else {
      assert Named(segments[0]);
      ResolveKeeps(segments[1..], kept + [segments[0]]);
      assert kept + segments == (kept + [segments[0]]) + segments[1..];
    }
  }

  /** An empty segment at the end makes no difference. */
  lemma {:induction false} ResolveEmptyEnd(segments: seq<string>, kept: seq<string>)
    ensures Resolve(segments + [""], kept) == Resolve(segments, kept)
    decreases |segments|
  {
    var longer := segments + [""];
    if segments == [] {
      assert longer == [""] && longer[1..] == [];
    } else {
      assert longer[1..] == segments[1..] + [""] && longer[0] == segments[0];
      var s := segments[0];
      if s == "" || s == "." {
        ResolveEmptyEnd(segments[1..], kept);
      } else if s == ".." && kept != [] && kept[|kept| - 1] != ".." {
        ResolveEmptyEnd(segments[1..], kept[..|kept| - 1]);
      } else {
        ResolveEmptyEnd(segments[1..], kept + [s]);
      }
    }
  }

  lemma {:induction false} JoinSnoc(parts: seq<string>, last: string, sep: char)
    requires parts != []
    ensures Join(parts + [last], sep) == Join(parts, sep) + ([sep] + last)
  {
    var longer := parts + [last];
    assert longer[1..] == parts[1..] + [last];
    if |parts| > 1 {
      JoinSnoc(parts[1..], last, sep);
    }
  }

  lemma SlashAtEnd(path: string)
    requires path != ""
    ensures var parts := Split(path, '/'); parts[|parts| - 1] == "" <==> EndsInSlash(path)
  {
    var n := |path| - 1;
    if EndsInSlash(path) {
      assert path == path[..n] + (['/'] + "");
      SplitAtSeparator(path[..n], "", '/');
    } else {
      LastPart(path);
    }
  }

  lemma {:induction false} LastPart(path: string)
    requires path != "" && !EndsInSlash(path)
    ensures var parts := Split(path, '/'); parts[|parts| - 1] != ""
  {
    if |path| > 1 {
      LastPart(path[1..]);
    } else {
      assert path[1..] == "";
    }
  }

  lemma PlainIsNormal(path: string)
    requires PlainPath(path)
    ensures Normalize(path) == path
  {
    hide Split, Join, Resolve;
    var parts := Split(path, '/');
    SlashAtEnd(path);
    JoinAfterSplit(path, '/');
    if !EndsInSlash(path) {
      ResolveKeeps(parts, []);
      assert [] + parts == parts;
    } else {
      var front := parts[..|parts| - 1];
      ResolveKeeps(front, []);
      ResolveEmptyEnd(front, []);
      assert [] + front == front && parts == front + [""];
      JoinSnoc(front, "", '/');
      PlainJoined(front);
      assert Join(front, '/') + (['/'] + "") == Join(front, '/') + "/";
    }
  }

  lemma PlainJoined(parts: seq<string>)
    requires parts != [] && parts[0] != ""
    ensures Join(parts, '/') != ""
  {
    assert |parts| > 1 ==> Join(parts, '/')[0] == parts[0][0];
  }

  lemma PlainEscapesNot(path: string)
    requires PlainPath(path)
    ensures !Escapes(path)
  {
    hide Split;
    if path == ".." || "../" <= path {
      FirstPart("..", path);
    }
    if Contains(path, "/../") {
      var i :| 0 <= i <= |path| && "/../" <= path[i..];
      var rest := path[i + 1..];
      assert path[i..][1..] == rest && "../" <= rest;
      assert path == path[..i] + (['/'] + rest);
      SplitAtSeparator(path[..i], rest, '/');
      FirstPart("..", rest);
      PartOfBoth(Split(path[..i], '/'), Split(rest, '/'));
    }
  }

  lemma PartOfBoth(a: seq<string>, b: seq<string>)
    requires b != []
    ensures (a + b)[|a|] == b[0]
  {
  }

  lemma FirstPart(part: string, path: string)
    requires Without(part, '/') && (path == part || part + "/" <= path)
    ensures Split(path, '/')[0] == part
  {
    var rest := path[|part|..];
    assert path == part + rest;
    SplitGlue(part, rest, '/');
    if rest != "" {
      assert rest[0] == '/';
    }
  }

  /** What a normalized path that does not escape looks like. */
  lemma NormalIsPlain(path: string)
    requires !Escapes(Normalize(path))
    ensures Normalize(path) == "." || Normalize(path) == "./" || PlainPath(Normalize(path))
  {
    hide Split, Join, Resolve, Escapes;
    var parts := Resolve(Split(path, '/'), []);
    ResolvePlain(Split(path, '/'), []);
    ResolveDots(Split(path, '/'), []);
    if parts != [] {
      var core := Join(parts, '/');
      JoinHead(parts);
      SplitAfterJoin(parts, '/');
      SplitAtSeparator(core, "", '/');
      assert core + (['/'] + "") == core + "/";
      EmptyPart();
      if parts[0] == ".." {
        JoinStarts(parts);
        DotsEscape(Normalize(path));
      }
    } else {
      NothingJoined();
    }
  }

  lemma NothingJoined()
    ensures Join([], '/') == ""
  {
  }

  lemma EmptyPart()
    ensures Split("", '/') == [""]
  {
  }

  lemma JoinStarts(parts: seq<string>)
    requires parts != []
    ensures var core := Join(parts, '/'); core == parts[0] || parts[0] + "/" <= core
  {
    if |parts| > 1 {
      assert parts[0] + ['/'] + Join(parts[1..], '/') == (parts[0] + "/") + Join(parts[1..], '/');
    }
  }

  lemma DotsEscape(path: string)
    requires path == ".." || "../" <= path
    ensures Escapes(path)
  {
    hide Contains;
  }

  /**
   A path is accepted, and comes out without a leading `./`, exactly when it is relative, free of NUL
   and backslash, no source file, and made of named segments; or when it is only dots, as `.` and `././`.
   */
  lemma SafePathExactly(path: string)
    ensures SafePath(path).Ok? <==>
              && path != "" && Without(path, '\0') && Without(path, '\\') && path[0] != '/' && !DrivePath(path)
              && var n := StripDotSlash(path);
                 (n == "." || n == "./" || PlainPath(n)) && !SourceFile(n)
    ensures SafePath(path).Ok? ==> SafePath(path).value == StripDotSlash(path)
  {
    hide Normalize, PlainPath, Escapes, SourceFile, DrivePath;
    if path != "" {
      var n := StripDotSlash(path);
      if "./" <= path && n != "" {
        assert path == "./" + n;
        NormalizeDotSlash(n);
      }
      if !Escapes(Normalize(path)) {
        NormalIsPlain(path);
      }
      if PlainPath(n) {
        PlainNotEmpty(n);
        PlainIsNormal(n);
        PlainEscapesNot(n);
      }
      DotsAccepted(path);
    }
  }

  lemma PlainNotEmpty(path: string)
    requires PlainPath(path)
    ensures path != ""
  {
  }

  lemma DotsAccepted(path: string)
    ensures StripDotSlash(path) == "." || (StripDotSlash(path) == "./" && path != "./") ==>
              Normalize(path) == StripDotSlash(path) && !Escapes(Normalize(path))
  {
    hide Normalize, Escapes;
    DotParts();
    DotPart();
    ShortEscapesNot(".");
    ShortEscapesNot("./");
    if "./" <= path {
      assert path == "./" + path[2..];
      assert "./" + "." == "./." && "./" + "./" == "././";
    }
  }

  lemma DotPart()
    ensures Normalize(".") == "." && Normalize("./.") == "."
  {
    var one, two := ["."], [".", "."];
    assert two[1..] == one && one[1..] == [];
    assert Join(one, '/') == "." && Join(two, '/') == "." + ['/'] + "." == "./.";
    assert Resolve([], []) == [] && Resolve(one, []) == [] && Resolve(two, []) == [];
    NormalizeParts(".", one);
    NormalizeParts("./.", two);
  }

  // ----- accepting twice -----

  /**
   An accepted path is accepted again, unchanged, exactly when it is neither `./` nor
   what a leading `./` had hidden: a drive path.
   */
  lemma SafePathAgain(path: string)
    requires SafePath(path).Ok?
    ensures var n := SafePath(path).value;
            && (SafePath(n).Ok? ==> SafePath(n).value == n)
            && (SafePath(n).Ok? <==> n != "./" && !DrivePath(n))
  {
    SafePathIsNormal(path);
  }

  /** What a leading `./` hides: a path that, without it, is `./` or a drive path. */
  predicate Unrepeatable(path: string) {
    path == "././" || ("./" <= path && DrivePath(path[2..]))
  }

  /** The same condition on the path that was handed in. */
  lemma SafePathAgainInput(path: string)
    requires SafePath(path).Ok?
    ensures SafePath(SafePath(path).value) == SafePath(path)
            <==> !Unrepeatable(path)
  {
    var n := SafePath(path).value;
    SafePathAgain(path);
    SafePathIsNormal(path);
    if "./" <= path {
      assert path == "./" + n;
      assert "./" + "./" == "././";
      if path == "././" {
        assert n == path[2..] == "./";
      }
    } else {
      assert path == n;
    }
  }

  lemma NormalizeParts(path: string, parts: seq<string>)
    requires parts != [] && AllWithout(parts, '/') && Join(parts, '/') == path
    ensures Normalize(path) ==
            var core := Join(Resolve(parts, []), '/');
            if core == "" then (if EndsInSlash(path) then "./" else ".")
            else if EndsInSlash(path) then core + "/" else core
  {
    SplitAfterJoin(parts, '/');
  }

  lemma ShortIsNoSourceFile(path: string)
    requires |path| < 9
    ensures !SourceFile(path)
  {
    assert forall name :: name in SOURCE_PATHS ==> |name| >= 9;
  }

  lemma ShortEscapesNot(path: string)
    requires |path| < 4 || (|path| == 4 && path[0] != '/')
    requires path != ".." && !("../" <= path)
    ensures !Escapes(path)
  {
    forall i | 0 <= i <= |path| ensures !("/../" <= path[i..]) {
      if |path| == 4 && i == 0 {
        assert path[i..][0] == path[0];
      }
    }
  }

  lemma DotParts()
    ensures Normalize("././") == "./" && Normalize("./") == "./"
  {
    var two, three := [".", ""], [".", ".", ""];
    assert three[1..] == two && two[1..] == [""] && [""][1..] == [];
    assert Join([""], '/') == "" && Join(two, '/') == "." + ['/'] + "" == "./";
    assert Join(three, '/') == "." + ['/'] + "./" == "././";
    assert Resolve([], []) == [] && Resolve([""], []) == [] && Resolve(two, []) == [] && Resolve(three, []) == [];
    NormalizeParts("./", two);
    NormalizeParts("././", three);
  }

  lemma DriveParts()
    ensures Normalize("./C:/x") == "C:/x"
  {
    var two, three := ["C:", "x"], [".", "C:", "x"];
    assert three[1..] == two && two[1..] == ["x"] && ["x"][1..] == [];
    assert Join(["x"], '/') == "x" && Join(two, '/') == "C:" + ['/'] + "x" == "C:/x";
    assert Join(three, '/') == "." + ['/'] + "C:/x" == "./C:/x";
    assert [] + ["C:"] == ["C:"] && ["C:"] + ["x"] == two;
    assert Resolve([], two) == two && Resolve(["x"], ["C:"]) == two;
    assert Resolve(two, []) == two && Resolve(three, []) == two;
    NormalizeParts("./C:/x", three);
  }

  /** Inputs that fail it: `././` becomes `./`, which is refused, and `./C:/x` a refused drive path. */
  lemma SafePathTwiceFails()
    ensures SafePath("././") == Ok("./") && SafePath("./") == Err(EscapingPath)
    ensures SafePath("./C:/x") == Ok("C:/x") && SafePath("C:/x") == Err(AbsolutePath)
  {
    hide Normalize, SourceFile, Escapes;
    DotParts();
    DriveParts();
    ShortIsNoSourceFile("./");
    ShortIsNoSourceFile("C:/x");
    ShortEscapesNot("./");
    ShortEscapesNot("C:/x");
    assert StripDotSlash("././") == "./" && StripDotSlash("./") == "" && StripDotSlash("./C:/x") == "C:/x";
  }

  lemma LetterPath()
    ensures SafePath("a") == Ok("a")
  {
    hide Normalize, SourceFile, Escapes;
    assert Join(["a"], '/') == "a" && ["a"][1..] == [] && [] + ["a"] == ["a"];
    LetterNormal();
    ShortIsNoSourceFile("a");
    ShortEscapesNot("a");
    assert StripDotSlash("a") == "a";
  }

  lemma LetterNormal()
    ensures Normalize("a") == "a"
  {
    var parts := ["a"];
    assert parts[1..] == [] && [] + parts == parts && Resolve([], parts) == parts;
    assert Resolve(parts, []) == parts;
    NormalizeParts("a", parts);
  }
}
