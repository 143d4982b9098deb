/** Assets of an HTML file shown by the web viewer: resolving their paths under the viewer's root, and
    rewriting their URLs so that they come back through the viewer. */
module WebViewer {
  import opened Text
  import opened DrivePaths
  import opened PercentCoding

  const ASSETS := "/api/web-viewer/assets/"
  const ESCAPES := "Asset path escapes viewer root"

  // ---- Resolution ----

  predicate IsExternal(asset: string) {
    "http://" <= asset || "https://" <= asset || "//" <= asset
  }

  function BeforeQuery(asset: string): string {
    if asset == "" || asset[0] == '?' || asset[0] == '#' then "" else [asset[0]] + BeforeQuery(asset[1..])
  }

  /** The path an asset reference names, decoded, or why it is refused. */
  function AssetPath(asset: string): Result<string> {
    if '\\' in asset then Err("Invalid asset path")
    else if IsExternal(asset) then Err("External asset URLs are blocked")
    else
      var decoded := Decode(BeforeQuery(asset));
      if !Utf8(decoded) then Err("Invalid asset path encoding")
      else if '\\' in decoded then Err("Invalid asset path")
      else Ok(decoded)
  }

  function Components(path: string): seq<string> {
    Split(TrimMatches(path, "/"), "/")
  }

  predicate IsAbsolute(path: string) {
    path != "" && path[0] == '/'
  }

  /** The walk over the components, never dropping below `floor` parts. */
  function Walk(parts: seq<string>, floor: nat, components: seq<string>): Result<seq<string>>
    decreases |components|
  {
    if components == [] then Ok(parts)
    else if components[0] == "" || components[0] == "." then Walk(parts, floor, components[1..])
    else if components[0] == ".." then
      if |parts| <= floor || parts == [] then Err(ESCAPES) else Walk(parts[..|parts| - 1], floor, components[1..])
    else Walk(parts + [components[0]], floor, components[1..])
  }

  /** What the walk makes of a decoded path, for a normalized root and base. */
  function Walked(root: string, base: string, path: string): Result<seq<string>> {
    var floor := LogicalParts(root);
    Walk(if IsAbsolute(path) then floor else LogicalParts(base), |floor|, Components(path))
  }

  function Resolve(root: string, base: string, asset: string): Result<string> {
    match (Normalize(root), Normalize(base))
    case (Err(m), _) => Err(m)
    case (_, Err(m)) => Err(m)
    case (Ok(r), Ok(b)) =>
      if !IsSameOrChild(b, r) then Err("Asset base escapes viewer root") else ResolveNormalized(r, b, asset)
  }

  function ResolveNormalized(root: string, base: string, asset: string): Result<string> {
    match AssetPath(asset)
    case Err(m) => Err(m)
    case Ok(path) =>
      match Walked(root, base, path)
      case Err(m) => Err(m)
      case Ok(parts) => if IsSameOrChild(FromParts(parts), root) then Ok(FromParts(parts)) else Err(ESCAPES)
  }

  method ResolveAssetLogicalPath(root: string, base: string, asset: string) returns (r: Result<string>)
    ensures r == Resolve(root, base, asset)
  {
    hide Decode, Utf8, BeforeQuery, TrimMatches, Split, NonEmpty, Join, TrimSpace;
    var normalizedRoot := Normalize(root);
    if normalizedRoot.Err? { return Err(normalizedRoot.message); }
    var normalizedBase := Normalize(base);
    if normalizedBase.Err? { return Err(normalizedBase.message); }
    hide Normalize;
    if !IsSameOrChild(normalizedBase.value, normalizedRoot.value) { return Err("Asset base escapes viewer root"); }
    if '\\' in asset { return Err("Invalid asset path"); }
    if IsExternal(asset) { return Err("External asset URLs are blocked"); }
    var decoded := Decode(BeforeQuery(asset));
    if !Utf8(decoded) { return Err("Invalid asset path encoding"); }
    if '\\' in decoded { return Err("Invalid asset path"); }
    var walked := WalkComponents(normalizedRoot.value, normalizedBase.value, decoded);
    if walked.Err? { return Err(walked.message); }
    var logical := FromParts(walked.value);
    if IsSameOrChild(logical, normalizedRoot.value) {
      return Ok(logical);
    }
    return Err(ESCAPES);
  }

  method WalkComponents(root: string, base: string, path: string) returns (r: Result<seq<string>>)
    ensures r == Walked(root, base, path)
  {
    hide LogicalParts, Components;
    var rootParts := LogicalParts(root);
    var parts := if IsAbsolute(path) then rootParts else LogicalParts(base);
    var components := Components(path);
    ghost var start := parts;
    assert components[0..] == components;
    for i := 0 to |components|
      invariant Walk(start, |rootParts|, components) == Walk(parts, |rootParts|, components[i..])
    {
      var component := components[i];
      assert components[i..][0] == component && components[i..][1..] == components[i + 1..];
      if component == "" || component == "." {
        continue;
      } else if component == ".." {
        if |parts| <= |rootParts| || parts == [] { return Err(ESCAPES); }
        parts := parts[..|parts| - 1];
      } else {
        parts := parts + [component];
      }
    }
    return Ok(parts);
  }

  // ---- The reference: resolution inside a closed directory tree ----

  /** Follows the components from a place `below` a root that cannot be left. */
  function InTree(below: seq<string>, components: seq<string>): Option<seq<string>>
    decreases |components|
  {
    if components == [] then Some(below)
    else
      match components[0]
      case "" => InTree(below, components[1..])
      case "." => InTree(below, components[1..])
      case ".." => if below == [] then None else InTree(below[..|below| - 1], components[1..])
      case name => InTree(below + [name], components[1..])
  }

  lemma {:induction false} WalkIsInTree(root: seq<string>, below: seq<string>, components: seq<string>)
    ensures Walk(root + below, |root|, components) ==
            match InTree(below, components) case None => Err(ESCAPES) case Some(b) => Ok(root + b)
    decreases |components|
  {
    if components != [] {
      var name := components[0];
      if name == "" || name == "." {
        WalkIsInTree(root, below, components[1..]);
      } else if name == ".." {
        if below != [] {
          assert (root + below)[..|root + below| - 1] == root + below[..|below| - 1];
          WalkIsInTree(root, below[..|below| - 1], components[1..]);
        }
      } else {
        assert root + below + [name] == root + (below + [name]);
        WalkIsInTree(root, below + [name], components[1..]);
      }
    }
  }

  lemma {:induction false} InTreeKeepsSegments(below: seq<string>, components: seq<string>)
    requires AreSegments(below) && forall i :: 0 <= i < |components| ==> '/' !in components[i]
    ensures InTree(below, components).Some? ==> AreSegments(InTree(below, components).value)
    decreases |components|
  {
    if components != [] {
      var name := components[0];
      if name == "" || name == "." {
        InTreeKeepsSegments(below, components[1..]);
      } else if name == ".." {
        if below != [] { InTreeKeepsSegments(below[..|below| - 1], components[1..]); }
      } else {
        InTreeKeepsSegments(below + [name], components[1..]);
      }
    }
  }

  // ---- Paths below a root ----

  lemma {:induction false} TailOfConcat(a: seq<string>, b: seq<string>)
    ensures Tail(a + b) == Tail(a) + Tail(b)
    decreases |a|
  {
    if a == [] {
      assert a + b == b;
    } else {
      assert (a + b)[1..] == a[1..] + b;
      TailOfConcat(a[1..], b);
    }
  }

  /** A segment ends where its slash is. */
  lemma {:induction false} FirstSegment(p: string, s: string, q: string, t: string)
    requires '/' !in p && '/' !in q && (s == "" || s[0] == '/') && t != "" && t[0] == '/'
    requires q + t <= p + s
    ensures p == q && t <= s
  {
    assert p != "" ==> p[0] in p && (p + s)[0] == p[0];
    assert p == "" ==> p + s == s;
    assert q != "" ==> q[0] in q && (q + t)[0] == q[0];
    assert q == "" ==> q + t == t;
    assert (q + t)[0] == (p + s)[0];
    if p != "" && q != "" {
      assert (p + s)[1..] == p[1..] + s && (q + t)[1..] == q[1..] + t;
      FirstSegment(p[1..], s, q[1..], t);
      assert p == [p[0]] + p[1..] && q == [q[0]] + q[1..];
    }
  }

  lemma {:induction false} TailPrefix(parts: seq<string>, root: seq<string>)
    requires AreSegments(parts) && AreSegments(root)
    requires Tail(root) + "/" <= Tail(parts)
    ensures root <= parts
    decreases |root|
  {
    if root != [] {
      assert Tail(root) + "/" == "/" + (root[0] + (Tail(root[1..]) + "/"));
      assert parts != [];
      assert Tail(parts) == "/" + (parts[0] + Tail(parts[1..]));
      var t, s := Tail(root[1..]) + "/", Tail(parts[1..]);
      assert root[0] + t <= parts[0] + s by {
        assert (Tail(root) + "/")[1..] == root[0] + t && Tail(parts)[1..] == parts[0] + s;
      }
      FirstSegment(parts[0], s, root[0], t);
      TailPrefix(parts[1..], root[1..]);
      assert root == [root[0]] + root[1..] && parts == [parts[0]] + parts[1..];
    }
  }

  /** The textual test for a child is exactly the prefix relation on segments. */
  lemma ChildIff(parts: seq<string>, root: seq<string>)
    requires AreSegments(parts) && AreSegments(root)
    ensures IsSameOrChild(FromParts(parts), FromParts(root)) <==> root <= parts
  {
    FromPartsIsTail(parts);
    FromPartsIsTail(root);
    hide FromParts, AreSegments;
    var p, r := FromParts(parts), FromParts(root);
    if root <= parts { PrefixIsChild(parts, root); }
    assert p[|DRIVE|..] == Tail(parts) && r[|DRIVE|..] == Tail(root);
    hide Tail;
    if r + "/" <= p {
      assert (r + "/")[|DRIVE|..] == Tail(root) + "/";
      assert (r + "/")[|DRIVE|..] <= p[|DRIVE|..];
      TailPrefix(parts, root);
    }
    if p == r { SameTail(parts, root); }
  }

  lemma PrefixIsChild(parts: seq<string>, root: seq<string>)
    requires root <= parts
    ensures DRIVE + Tail(parts) == DRIVE + Tail(root) || DRIVE + Tail(root) + "/" <= DRIVE + Tail(parts)
  {
    var rest := parts[|root|..];
    assert parts == root + rest;
    TailOfConcat(root, rest);
    if rest == [] {
      assert parts == root;
    } else {
      var name := rest[0] + Tail(rest[1..]);
      assert Tail(rest) == "/" + name;
      hide Tail;
      Regroup(DRIVE, Tail(root), "/", name);
    }
  }

  lemma Regroup(a: string, b: string, c: string, d: string)
    ensures a + (b + (c + d)) == (a + b + c) + d
  {
  }

  lemma SameTail(a: seq<string>, b: seq<string>)
    requires AreSegments(a) && AreSegments(b) && Tail(a) == Tail(b)
    ensures a == b
  {
    SplitTail("", a);
    SplitTail("", b);
    assert "" + Tail(a) == Tail(a) && "" + Tail(b) == Tail(b);
    assert ([""] + a)[1..] == a && ([""] + b)[1..] == b;
  }

  // ---- Resolution stays in the tree ----

  lemma ComponentsHaveNoSlash(path: string)
    ensures forall i :: 0 <= i < |Components(path)| ==> '/' !in Components(path)[i]
  {
    SplitCharPieces(TrimMatches(path, "/"), '/');
  }

  /** For a base below the root, both taken apart faithfully, the walk is resolution in the tree of the root:
      from the base for a relative path and from the root for an absolute one. */
  lemma WalkedIsInTree(root: seq<string>, below: seq<string>, path: string)
    requires AreSegments(root) && AreSegments(below) && Clean(root) && Clean(root + below)
    ensures var found := InTree(if IsAbsolute(path) then [] else below, Components(path));
            && (found.Some? ==> AreSegments(found.value))
            && Walked(FromParts(root), FromParts(root + below), path) ==
               match found case None => Err(ESCAPES) case Some(b) => Ok(root + b)
  {
    PartsOfPath(root);
    PartsOfPath(root + below);
    assert root + [] == root;
    var start := if IsAbsolute(path) then [] else below;
    WalkIsInTree(root, start, Components(path));
    ComponentsHaveNoSlash(path);
    InTreeKeepsSegments(start, Components(path));
  }

  /** The final check never refuses what the walk lets through. */
  ghost predicate GuardIsIdle(root: seq<string>) {
    forall base, path :: AreSegments(base) && root <= base && GuardReached(root, base, path) ==>
      IsSameOrChild(FromParts(Walked(FromParts(root), FromParts(base), path).value), FromParts(root))
  }

  predicate GuardReached(root: seq<string>, base: seq<string>, path: string) {
    Walked(FromParts(root), FromParts(base), path).Ok?
  }

  /** The walk alone keeps every path under the root, so that the final check never fires, exactly when
      the root's first segment does not begin with `drive`. */
  lemma GuardIsIdleIff(root: seq<string>)
    requires AreSegments(root)
    ensures GuardIsIdle(root) <==> Clean(root)
  {
    if Clean(root) {
      forall base, path | AreSegments(base) && root <= base && GuardReached(root, base, path)
        ensures IsSameOrChild(FromParts(Walked(FromParts(root), FromParts(base), path).value), FromParts(root))
      {
        WalkStaysUnder(root, base, path);
      }
    } else {
      GuardFires(root);
    }
  }

  lemma WalkStaysUnder(root: seq<string>, base: seq<string>, path: string)
    requires AreSegments(root) && AreSegments(base) && root <= base && Clean(root)
    requires GuardReached(root, base, path)
    ensures IsSameOrChild(FromParts(Walked(FromParts(root), FromParts(base), path).value), FromParts(root))
  {
    hide Walked, FromParts, Components;
    if root == [] {
      UnderDrive(Walked(FromParts(root), FromParts(base), path).value);
    } else {
      var below := base[|root|..];
      assert base == root + below;
      WalkedIsInTree(root, below, path);
      var found := InTree(if IsAbsolute(path) then [] else below, Components(path));
      ChildIff(root + found.value, root);
    }
  }

  lemma UnderDrive(parts: seq<string>)
    ensures IsSameOrChild(FromParts(parts), FromParts([]))
  {
  }

  /** Asked for the root itself, the check refuses it when the root loses letters in being taken apart. */
  lemma GuardFires(root: seq<string>)
    requires AreSegments(root) && !Clean(root)
    ensures GuardReached(root, root, "")
    ensures !IsSameOrChild(FromParts(Walked(FromParts(root), FromParts(root), "").value), FromParts(root))
  {
    PartsOfPath(root);
    StrippedIsShorter(root);
    FromPartsIsTail(root);
    FromPartsIsTail(Stripped(root));
    NoComponents();
    hide FromParts, Tail, Stripped, LogicalParts, Components;
  }

  lemma NoComponents()
    ensures Components("") == [""]
  {
    FindChar("", '/');
  }

  /** Resolution of an asset, for a root and a base below it: refused for its form, or for leaving the tree of
      the root, and otherwise the place in that tree it leads to. */
  lemma ResolvesInTree(root: string, base: string, asset: string, rootParts: seq<string>, below: seq<string>)
    requires AreSegments(rootParts) && AreSegments(below) && Clean(rootParts) && Clean(rootParts + below)
    requires Normalize(root) == Ok(FromParts(rootParts)) && Normalize(base) == Ok(FromParts(rootParts + below))
    ensures Resolve(root, base, asset) ==
            match AssetPath(asset)
            case Err(m) => Err(m)
            case Ok(path) =>
              match InTree(if IsAbsolute(path) then [] else below, Components(path))
              case None => Err(ESCAPES)
              case Some(place) => Ok(FromParts(rootParts + place))
  {
    hide Normalize, AssetPath, Components, FromParts, Walked;
    ChildIff(rootParts + below, rootParts);
    if AssetPath(asset).Ok? {
      var path := AssetPath(asset).value;
      WalkedIsInTree(rootParts, below, path);
      var found := InTree(if IsAbsolute(path) then [] else below, Components(path));
      if found.Some? { ChildIff(rootParts + found.value, rootParts); }
    }
  }

  /** Resolution in the tree of the root, for every asset. */
  function InTreeOf(asset: string, root: seq<string>, below: seq<string>): Result<string> {
    match AssetPath(asset)
    case Err(m) => Err(m)
    case Ok(path) =>
      match InTree(if IsAbsolute(path) then [] else below, Components(path))
      case None => Err(ESCAPES)
      case Some(place) => Ok(FromParts(root + place))
  }

  /** The resolution is that of the tree for all assets exactly when the first segment of the base does not
      begin with `drive`. */
  lemma ResolvesInTreeIff(root: string, base: string, rootParts: seq<string>, below: seq<string>)
    requires AreSegments(rootParts) && AreSegments(below)
    requires Normalize(root) == Ok(FromParts(rootParts)) && Normalize(base) == Ok(FromParts(rootParts + below))
    ensures (forall asset :: Resolve(root, base, asset) == InTreeOf(asset, rootParts, below)) <==> Clean(rootParts + below)
  {
    hide Resolve, InTreeOf;
    if Clean(rootParts + below) {
      forall asset ensures Resolve(root, base, asset) == InTreeOf(asset, rootParts, below) {
        ResolvesInTree(root, base, asset, rootParts, below);
        InTreeUnfolds(asset, rootParts, below);
      }
    } else {
      NotInTree(root, base, rootParts, below);
    }
  }

  lemma InTreeUnfolds(asset: string, root: seq<string>, below: seq<string>)
    ensures InTreeOf(asset, root, below) ==
            match AssetPath(asset)
            case Err(m) => Err(m)
            case Ok(path) =>
              match InTree(if IsAbsolute(path) then [] else below, Components(path))
              case None => Err(ESCAPES)
              case Some(place) => Ok(FromParts(root + place))
  {
  }

  lemma NothingAsked()
    ensures AssetPath("") == Ok("")
  {
  }

  /** Asked for the base itself, the resolution leads elsewhere or nowhere. */
  lemma NotInTree(root: string, base: string, rootParts: seq<string>, below: seq<string>)
    requires AreSegments(rootParts) && AreSegments(below) && !Clean(rootParts + below)
    requires Normalize(root) == Ok(FromParts(rootParts)) && Normalize(base) == Ok(FromParts(rootParts + below))
    ensures Resolve(root, base, "") != InTreeOf("", rootParts, below)
  {
    var parts := rootParts + below;
    NothingAsked();
    NoComponents();
    PartsOfPath(parts);
    StrippedIsShorter(parts);
    FromPartsIsTail(parts);
    FromPartsIsTail(Stripped(parts));
    hide AssetPath, Components, Normalize, FromParts, Tail, Stripped, LogicalParts, IsSameOrChild;
    assert InTree(below, [""]) == Some(below) by { assert [""][1..] == []; }
    assert InTreeOf("", rootParts, below) == Ok(FromParts(parts));
  }

  /** A root no one would suspect: asked for it, the viewer refuses its own root. */
  lemma UncleanRootHappens()
    ensures Normalize("/drive//drivefoo") == Ok("/drive/drivefoo")
    ensures Resolve("/drive//drivefoo", "/drive//drivefoo", "") == Err(ESCAPES)
  {
    hide Normalize, AssetPath, Walked, FromParts, Tail, SpaceEnds, Clean;
    var parts := ["drivefoo"];
    OneSegment();
    PlainEnd();
    DoubledSlash(parts);
    GuardFires(parts);
    NothingAsked();
    assert IsSameOrChild(FromParts(parts), FromParts(parts));
  }

  lemma OneSegment()
    ensures AreSegments(["drivefoo"]) && !Clean(["drivefoo"]) && FromParts(["drivefoo"]) == "/drive/drivefoo"
    ensures DRIVE + ("/" + Tail(["drivefoo"])) == "/drive//drivefoo"
  {
    var parts := ["drivefoo"];
    assert parts[1..] == [] && Tail(parts) == "/" + "drivefoo";
    assert "drivefoo"[..5] == "drive";
  }

  lemma PlainEnd()
    ensures !SpaceEnds("/drive//drivefoo")
  {
    var s := "/drive//drivefoo";
    assert s[|s| - 1..] == "o" && s[|s| - 2..] == "oo" && s[|s| - 3..] == "foo";
  }

  // ---- Rewritten URLs ----

  function AsciiLower(s: string): string {
    seq(|s|, i requires 0 <= i < |s| => if 'A' <= s[i] <= 'Z' then s[i] + ' ' else s[i])
  }

  predicate ShouldLeave(value: string) {
    var lower := AsciiLower(TrimSpace(value));
    || lower == "" || "#" <= lower || "data:" <= lower || "blob:" <= lower || "mailto:" <= lower || "tel:" <= lower
  }

  predicate IsExternalWeb(value: string) {
    IsExternal(AsciiLower(TrimSpace(value)))
  }

  function Relative(path: string, root: string): string {
    if path == root then "" else if root + "/" <= path then path[|root| + 1..] else path
  }

  /** A path below the root loses the root and the slash behind it; the root itself loses everything. */
  lemma RelativeIs(root: string, rest: string)
    ensures Relative(root + "/" + rest, root) == rest && Relative(root, root) == ""
  {
    var path := root + "/" + rest;
    assert |path| > |root| && path[|root| + 1..] == rest && path[..|root| + 1] == root + "/";
  }

  function EncodeAll(parts: seq<string>): seq<string> {
    seq(|parts|, i requires 0 <= i < |parts| => Encode(parts[i]))
  }

  function EncodePath(path: string): string {
    Join(EncodeAll(Split(path, "/")), "/")
  }

  lemma PiecesAreBytes(path: string)
    requires IsBytes(path)
    ensures forall i :: 0 <= i < |Split(path, "/")| ==> IsBytes(Split(path, "/")[i])
  {
    JoinOfSplit(path, "/");
    JoinIsBytes(Split(path, "/"));
  }

  lemma {:induction false} JoinIsBytes(parts: seq<string>)
    requires IsBytes(Join(parts, "/"))
    ensures forall i :: 0 <= i < |parts| ==> IsBytes(parts[i])
  {
    if |parts| > 1 {
      var all, rest := Join(parts, "/"), Join(parts[1..], "/");
      assert all == parts[0] + "/" + rest;
      assert forall i :: 0 <= i < |parts[0]| ==> parts[0][i] == all[i];
      assert forall i :: 0 <= i < |rest| ==> rest[i] == all[|parts[0]| + 1 + i];
      JoinIsBytes(parts[1..]);
    }
  }

  function AssetUrl(logical: string, root: string): string {
    ASSETS + EncodePath(Relative(logical, root)) + "?root=" + Encode(root)
  }

  function RewriteUrl(attr: string, value: string, root: string, base: string): string {
    if ShouldLeave(value) then value
    else if AsciiLower(attr) == "href" && IsExternalWeb(value) then value
    else
      match Resolve(root, base, value)
      case Err(_) => "about:blank"
      case Ok(logical) => AssetUrl(logical, root)
  }

  /** What is trimmed off byte strings are the white space characters in their UTF-8 form. */
  lemma SpaceIff(s: string)
    ensures IsSpace(s) <==> exists c: char :: IsWhitespace(c) && IsScalar(c as nat) && ScalarBytes(c as nat) == s
  {
    if IsSpace(s) {
      var c := SpaceChar(s);
    }
    forall c: char | IsWhitespace(c) && IsScalar(c as nat) && ScalarBytes(c as nat) == s ensures IsSpace(s) {
      CharIsSpace(c);
    }
  }

  lemma SpaceChar(s: string) returns (c: char)
    requires IsSpace(s)
    ensures IsWhitespace(c) && IsScalar(c as nat) && ScalarBytes(c as nat) == s
  {
    if |s| == 1 { c := s[0]; }
    else if |s| == 2 { c := s[1]; }
    else if s[0] == '\U{E1}' { c := '\U{1680}'; }
    else if s[0] == '\U{E3}' { c := '\U{3000}'; }
    else if s[1] == '\U{81}' { c := '\U{205F}'; }
    else { c := (0x2000 + (s[2] as nat - 0x80)) as char; }
  }

  lemma CharIsSpace(c: char)
    requires IsWhitespace(c) && IsScalar(c as nat)
    ensures IsSpace(ScalarBytes(c as nat))
  {
  }

  // ---- Which references are rewritten, and to what ----

  /** The text starts with the small letters, or with their capitals. */
  predicate StartsLike(s: string, prefix: string) {
    |prefix| <= |s| && forall i :: 0 <= i < |prefix| ==> IsLike(s[i], prefix[i])
  }

  predicate IsLike(c: char, small: char) {
    c == small || ('A' <= c <= 'Z' && c as int + 32 == small as int)
  }

  predicate HasNoCapitals(s: string) {
    forall i :: 0 <= i < |s| ==> !('A' <= s[i] <= 'Z')
  }

  lemma LowerStarts(s: string, prefix: string)
    requires HasNoCapitals(prefix)
    ensures prefix <= AsciiLower(s) <==> StartsLike(s, prefix)
  {
    var lower := AsciiLower(s);
    if |prefix| <= |s| {
      forall i | 0 <= i < |prefix| ensures lower[i] == prefix[i] <==> IsLike(s[i], prefix[i]) {}
      assert prefix <= lower <==> forall i :: 0 <= i < |prefix| ==> lower[i] == prefix[i];
    }
  }

  lemma LowerIs(s: string, word: string)
    requires HasNoCapitals(word)
    ensures AsciiLower(s) == word <==> |s| == |word| && StartsLike(s, word)
  {
    LowerStarts(s, word);
    hide AsciiLower;
    LowerLength(s);
  }

  lemma LowerLength(s: string)
    ensures |AsciiLower(s)| == |s|
  {
  }

  /** Nothing, a place on the same page, embedded data, a mail address or a telephone number. */
  predicate StaysAsIs(text: string) {
    || text == "" || StartsLike(text, "#") || StartsLike(text, "data:") || StartsLike(text, "blob:")
    || StartsLike(text, "mailto:") || StartsLike(text, "tel:")
  }

  predicate LeadsOut(text: string) {
    StartsLike(text, "http://") || StartsLike(text, "https://") || StartsLike(text, "//")
  }

  lemma LeftIff(value: string)
    ensures ShouldLeave(value) <==> StaysAsIs(TrimSpace(value))
    ensures IsExternalWeb(value) <==> LeadsOut(TrimSpace(value))
  {
    hide TrimSpace, AsciiLower, StartsLike, HasNoCapitals;
    PrefixesAreSmall();
    var t := TrimSpace(value);
    LowerStarts(t, "#");
    LowerStarts(t, "data:");
    LowerStarts(t, "blob:");
    LowerStarts(t, "mailto:");
    LowerStarts(t, "tel:");
    LowerStarts(t, "http://");
    LowerStarts(t, "https://");
    LowerStarts(t, "//");
    LowerLength(t);
  }

  lemma PrefixesAreSmall()
    ensures HasNoCapitals("#") && HasNoCapitals("data:") && HasNoCapitals("blob:") && HasNoCapitals("mailto:")
    ensures HasNoCapitals("tel:") && HasNoCapitals("http://") && HasNoCapitals("https://") && HasNoCapitals("//")
  {
  }

  /** What stays as it is, and links that lead out of the viewer, are not touched at all; every other reference
      becomes the URL of the asset it resolves to, or a blank page if it resolves to none. */
  lemma RewriteIs(attr: string, value: string, root: string, base: string)
    ensures var text, isLink := TrimSpace(value), |attr| == 4 && StartsLike(attr, "href");
            RewriteUrl(attr, value, root, base) ==
            if StaysAsIs(text) || (isLink && LeadsOut(text)) then value
            else
              var place := Resolve(root, base, value);
              if place.Ok? then "/api/web-viewer/assets/" + EncodePath(Relative(place.value, root)) + "?root=" + Encode(root)
              else "about:blank"
  {
    LeftIff(value);
    LowerIs(attr, "href");
    hide ShouldLeave, IsExternalWeb, StaysAsIs, LeadsOut, StartsLike, AsciiLower;
    hide Resolve, EncodePath, Relative, Encode, TrimSpace;
  }

  /** The first so many characters, up to a question mark, a hash sign, or the end. */
  predicate IsPathPart(asset: string, k: nat) {
    && k <= |asset| && (forall i :: 0 <= i < k ==> asset[i] != '?' && asset[i] != '#')
    && (k < |asset| ==> asset[k] == '?' || asset[k] == '#')
  }

  lemma {:induction false} PathPart(asset: string, k: nat)
    requires IsPathPart(asset, k)
    ensures BeforeQuery(asset) == asset[..k]
  {
    if k > 0 {
      PathPart(asset[1..], k - 1);
      assert asset[..k] == [asset[0]] + asset[1..][..k - 1];
    }
  }

  /** An asset names a path exactly if it is no web address, and neither it nor the path, its decoded part in front
      of query and fragment, holds a backslash, and the path is text. */
  lemma AssetPathIff(asset: string, k: nat, path: string)
    requires IsPathPart(asset, k)
    ensures AssetPath(asset) == Ok(path) <==>
            && '\\' !in asset && !("http://" <= asset) && !("https://" <= asset) && !("//" <= asset)
            && path == Decode(asset[..k]) && Utf8(path) && '\\' !in path
  {
    PathPart(asset, k);
    hide Decode, Utf8, BeforeQuery;
  }

  /** What the asset route makes of a URL: it decodes the path once and the root once, and resolves the path
      under the root. A URL of another shape does not reach it. */
  function Serve(url: string): Option<Result<string>> {
    if !(ASSETS <= url) then None
    else
      match Find(url[|ASSETS|..], "?")
      case None => None
      case Some(k) =>
        assert OccursAt(url[|ASSETS|..], "?", k);
        ServeParts(url[|ASSETS|..][..k], url[|ASSETS|..][k + 1..])
  }

  function ServeParts(path: string, query: string): Option<Result<string>> {
    if path == "" || !Utf8(Decode(path)) || !("root=" <= query) then None
    else
      var root := Decode(Replace(query[5..], "+", " "));
      if Utf8(root) then Some(Resolve(root, root, Decode(path))) else None
  }

  lemma {:induction false} DecodeOfJoined(parts: seq<string>, rest: string)
    requires parts != [] && forall i :: 0 <= i < |parts| ==> IsBytes(parts[i])
    ensures Decode(Join(EncodeAll(parts), "/") + rest) == Join(parts, "/") + Decode(rest)
    decreases |parts|
  {
    hide Decode, Join, Encode, IsBytes;
    var codes := EncodeAll(parts);
    UnfoldJoin(parts, "/");
    UnfoldJoin(codes, "/");
    if |parts| == 1 {
      DecodeOfEncoded(parts[0], rest);
    } else {
      var more := Join(codes[1..], "/") + rest;
      assert codes[1..] == EncodeAll(parts[1..]);
      DecodeOfJoined(parts[1..], rest);
      assert Join(codes, "/") + rest == codes[0] + ("/" + more);
      DecodeOfEncoded(parts[0], "/" + more);
      DecodeOfSlash(more);
    }
  }

  lemma DecodeOfSlash(rest: string)
    ensures Decode("/" + rest) == "/" + Decode(rest)
  {
    assert ("/" + rest)[1..] == rest;
  }

  lemma EncodedPathDecodes(path: string)
    requires IsBytes(path)
    ensures Decode(EncodePath(path)) == path
  {
    PiecesAreBytes(path);
    DecodeOfJoined(Split(path, "/"), "");
    JoinOfSplit(path, "/");
    assert EncodePath(path) + "" == EncodePath(path);
  }

  lemma {:induction false} EncodedPathAlphabet(parts: seq<string>)
    ensures forall c :: c in Join(EncodeAll(parts), "/") ==> IsUnreserved(c) || c == '%' || c == '/'
    decreases |parts|
  {
    if parts != [] {
      var codes := EncodeAll(parts);
      assert codes[1..] == EncodeAll(parts[1..]);
      EncodedAlphabet(parts[0]);
      EncodedPathAlphabet(parts[1..]);
    }
  }

  /** A URL the viewer made reaches the asset route with the same root and relative path. */
  lemma UrlIsServed(path: string, root: string)
    requires IsBytes(path) && IsBytes(root) && Utf8(path) && Utf8(root)
    ensures Serve(ASSETS + EncodePath(path) + "?root=" + Encode(root)) ==
            if path == "" then None else Some(Resolve(root, root, path))
  {
    hide Encode, EncodePath, ServeParts;
    var code, query := EncodePath(path), "root=" + Encode(root);
    var url, rest := ASSETS + code + "?root=" + Encode(root), code + "?" + query;
    assert url == ASSETS + rest && url[|ASSETS|..] == rest;
    PathAlphabet(path);
    FirstQuestionMark(code, query);
    assert rest[..|code|] == code && rest[|code| + 1..] == query;
    assert Serve(url) == ServeParts(code, query);
    PartsAreServed(path, root);
  }

  lemma PathAlphabet(path: string)
    ensures '?' !in EncodePath(path)
  {
    EncodedPathAlphabet(Split(path, "/"));
  }

  lemma PartsAreServed(path: string, root: string)
    requires IsBytes(path) && IsBytes(root) && Utf8(path) && Utf8(root)
    ensures ServeParts(EncodePath(path), "root=" + Encode(root)) ==
            if path == "" then None else Some(Resolve(root, root, path))
  {
    hide Decode, Encode, Utf8, Resolve, EncodePath, Replace;
    EncodedPathDecodes(path);
    EncodeRoundTrip(root);
    NoPlus(root);
    DecodeOfNothing();
    if path == "" { EncodedNothing(); }
  }

  lemma NoPlus(root: string)
    ensures Replace(Encode(root), "+", " ") == Encode(root)
  {
    EncodedAlphabet(root);
    FindChar(Encode(root), '+');
  }

  lemma DecodeOfNothing()
    ensures Decode("") == ""
  {
  }

  lemma EncodedNothing()
    ensures EncodePath("") == ""
  {
    FindChar("", '/');
    assert Split("", "/") == [""];
  }

  lemma FirstQuestionMark(code: string, query: string)
    requires '?' !in code
    ensures Find(code + "?" + query, "?") == Some(|code|)
  {
    var rest := code + "?" + query;
    forall k: nat | k <= |code| ensures OccursAt(rest, "?", k) <==> k == |code| { OccursChar(rest, '?', k); }
    FindIs(rest, "?", |code|);
  }

  // ---- When a rewritten URL leads back ----

  /** The relative paths that mean themselves: nothing in them is cut off, refused or decoded again. */
  predicate MeansItself(path: string) {
    '\\' !in path && '?' !in path && '#' !in path && !HasEscape(path)
  }

  lemma {:induction false} BeforeQueryIs(asset: string)
    ensures |BeforeQuery(asset)| <= |asset|
    ensures BeforeQuery(asset) == asset <==> '?' !in asset && '#' !in asset
    ensures BeforeQuery(asset) != asset ==> |BeforeQuery(asset)| < |asset|
  {
    if asset != "" { BeforeQueryIs(asset[1..]); }
  }

  lemma {:induction false} InTreeLength(below: seq<string>, components: seq<string>)
    ensures InTree(below, components).Some? ==>
              |Tail(InTree(below, components).value)| <= |Tail(below)| + |Tail(components)|
    decreases |components|
  {
    if components != [] {
      var name := components[0];
      if name == "" || name == "." {
        InTreeLength(below, components[1..]);
      } else if name == ".." {
        if below != [] {
          var up := below[..|below| - 1];
          assert below == up + [below[|below| - 1]];
          TailOfConcat(up, [below[|below| - 1]]);
          InTreeLength(up, components[1..]);
        }
      } else {
        TailOfConcat(below, [name]);
        assert [name][1..] == [];
        InTreeLength(below + [name], components[1..]);
      }
    }
  }

  lemma {:induction false} InTreeOfSegments(below: seq<string>, parts: seq<string>)
    requires AreSegments(parts)
    ensures InTree(below, parts) == Some(below + parts)
    decreases |parts|
  {
    if parts == [] {
      assert below + parts == below;
    } else {
      InTreeOfSegments(below + [parts[0]], parts[1..]);
      assert below + parts == below + [parts[0]] + parts[1..];
    }
  }

  lemma {:induction false} TrimmedSlashes(s: string)
    ensures |TrimMatches(s, "/")| <= |s|
  {
    if "/" <= s { TrimmedSlashes(s[1..]); }
  }

  lemma ComponentsLength(path: string)
    ensures |Tail(Components(path))| <= |path| + 1
  {
    var t := TrimMatches(path, "/");
    TrimmedSlashes(path);
    JoinOfSplit(t, "/");
    var parts := Split(t, "/");
    assert parts == [parts[0]] + parts[1..];
    JoinIsTail(parts[0], parts[1..]);
  }

  lemma {:induction false} JoinedSegments(parts: seq<string>)
    requires parts != [] && AreSegments(parts)
    ensures var s := Join(parts, "/"); s != "" && s[0] != '/' && forall i :: 0 < i < |s| && s[i] == '/' ==> s[i - 1] != '/'
    decreases |parts|
  {
    var p := parts[0];
    assert forall i :: 0 <= i < |p| ==> p[i] in p;
    if |parts| > 1 { JoinedSegments(parts[1..]); }
  }

  lemma RelativeOfChild(root: seq<string>, place: seq<string>)
    requires AreSegments(root) && AreSegments(place)
    ensures Relative(FromParts(root + place), FromParts(root)) == Join(place, "/")
  {
    if place == [] {
      assert root + place == root;
    } else {
      ChildText(root, place);
      hide FromParts, Join;
      var path, r, text := FromParts(root + place), FromParts(root), Join(place, "/");
      assert path[..|r| + 1] == r + "/" && path[|r| + 1..] == text;
    }
  }

  lemma ChildText(root: seq<string>, place: seq<string>)
    requires place != []
    ensures FromParts(root + place) == (FromParts(root) + "/") + Join(place, "/")
  {
    hide FromParts, Tail, Join;
    FromPartsIsTail(root);
    FromPartsIsTail(root + place);
    TailOfConcat(root, place);
    TailIsJoin(place);
    Regroup(DRIVE, Tail(root), "/", Join(place, "/"));
  }

  lemma TailIsJoin(place: seq<string>)
    requires place != []
    ensures Tail(place) == "/" + Join(place, "/")
  {
    hide Join;
    var rest := place[1..];
    JoinIsTail(place[0], rest);
    assert place == [place[0]] + rest;
    assert Tail(place) == "/" + (place[0] + Tail(rest));
  }

  lemma NotExternal(s: string)
    requires s != "" && s[0] != '/' && forall i :: 0 < i < |s| && s[i] == '/' ==> s[i - 1] != '/'
    ensures !IsExternal(s)
  {
    assert |s| > 6 && s[6] == '/' ==> s[5] != '/';
    assert |s| > 7 && s[7] == '/' ==> s[6] != '/';
  }

  /** A path of proper segments that means itself is read by an asset reference as those segments. */
  lemma PlainReference(place: seq<string>)
    requires place != [] && AreSegments(place)
    requires MeansItself(Join(place, "/")) && Utf8(Join(place, "/"))
    ensures var text := Join(place, "/");
            AssetPath(text) == Ok(text) && !IsAbsolute(text) && InTree([], Components(text)) == Some(place)
  {
    var text := Join(place, "/");
    JoinedSegments(place);
    BeforeQueryIs(text);
    DecodeFixedIff(text);
    SplitJoinChar(place, '/');
    InTreeOfSegments([], place);
    hide Join, Decode, BeforeQuery, Utf8, InTree, Split;
    NotExternal(text);
    assert TrimMatches(text, "/") == text;
    assert [] + place == place;
  }

  /** Any other path is refused or read as a shorter one. */
  lemma OtherReference(path: string)
    requires !MeansItself(path)
    ensures AssetPath(path).Ok? ==> |AssetPath(path).value| < |path|
  {
    BeforeQueryIs(path);
    DecodeFixedIff(BeforeQuery(path));
    hide Decode, BeforeQuery, HasEscape;
  }

  /** Resolving a place's relative path under the root leads back to the place exactly when that path means
      itself. */
  lemma ResolvesBackIff(root: seq<string>, place: seq<string>)
    requires AreSegments(root) && AreSegments(place) && Clean(root) && place != []
    requires Normalize(FromParts(root)) == Ok(FromParts(root)) && Utf8(Join(place, "/"))
    ensures Resolve(FromParts(root), FromParts(root), Join(place, "/")) == Ok(FromParts(root + place)) <==>
            MeansItself(Join(place, "/"))
  {
    var text := Join(place, "/");
    assert root + [] == root;
    ResolvesInTree(FromParts(root), FromParts(root), text, root, []);
    if MeansItself(text) {
      PlainReference(place);
    } else {
      OtherReference(text);
      if AssetPath(text).Ok? {
        var path := AssetPath(text).value;
        ComponentsLength(path);
        InTreeLength([], Components(path));
        var found := InTree([], Components(path));
        if found.Some? {
          TailIsJoin(place);
          FromPartsIsTail(root + place);
          FromPartsIsTail(root + found.value);
          TailOfConcat(root, place);
          TailOfConcat(root, found.value);
        }
      }
    }
  }

  /** Rewriting an asset reference of an HTML file at `below` under the viewer's root: a reference that does not
      resolve becomes a blank page; one that resolves becomes a URL that the asset route resolves to the same
      path, exactly when the path relative to the root means itself. A URL for the root itself reaches no route. */
  lemma RewrittenUrlComesBack(attr: string, value: string, base: string, root: seq<string>, below: seq<string>)
    requires AreSegments(root) && AreSegments(below) && Clean(root) && Clean(root + below)
    requires Normalize(FromParts(root)) == Ok(FromParts(root)) && Normalize(base) == Ok(FromParts(root + below))
    requires IsBytes(FromParts(root)) && Utf8(FromParts(root))
    requires !ShouldLeave(value) && !(AsciiLower(attr) == "href" && IsExternalWeb(value))
    ensures var url, r := RewriteUrl(attr, value, FromParts(root), base), FromParts(root);
            match Resolve(r, base, value)
            case Err(_) => url == "about:blank"
            case Ok(logical) =>
              var relative := Relative(logical, r);
              if logical == r then Serve(url) == None
              else IsBytes(relative) && Utf8(relative) ==>
                (Serve(url) == Some(Ok(logical)) <==> MeansItself(relative))
  {
    var r := FromParts(root);
    ResolvesInTree(r, base, value, root, below);
    match Resolve(r, base, value)
    case Err(_) =>
    case Ok(logical) =>
      var path := AssetPath(value).value;
      var start := if IsAbsolute(path) then [] else below;
      ComponentsHaveNoSlash(path);
      InTreeKeepsSegments(start, Components(path));
      var place := InTree(start, Components(path)).value;
      ChildIff(root, root + place);
      RelativeOfChild(root, place);
      hide Resolve, Serve, ShouldLeave, IsExternalWeb, AssetPath, InTree, Components, FromParts, EncodePath, Encode;
      var relative := Join(place, "/");
      if place == [] {
        assert root + place == root;
        UrlIsServed("", r);
      } else {
        JoinedSegments(place);
        if IsBytes(relative) && Utf8(relative) {
          UrlIsServed(relative, r);
          ResolvesBackIff(root, place);
        }
      }
  }

  // ---- A reference that does not come back ----

  lemma OnePlainSegment(name: string)
    requires IsSegment(name)
    ensures Tail([name]) == "/" + name && FromParts([name]) == DRIVE + ("/" + name)
  {
    assert [name][1..] == [];
    FromPartsIsTail([name]);
  }

  lemma PlainRoot()
    ensures Normalize("/drive/r") == Ok("/drive/r") && FromParts(["r"]) == "/drive/r"
    ensures IsBytes("/drive/r") && Utf8("/drive/r")
  {
    hide Normalize, FromParts, Tail;
    OnePlainSegment("r");
    assert DRIVE + ("/" + "r") == "/drive/r";
    PlainRootEnd();
    NormalizeAgainIff(["r"]);
    AsciiIsUtf8("/drive/r");
  }

  lemma PlainRootEnd()
    ensures !SpaceEnds("/drive/r") && Clean(["r"])
  {
    var s := "/drive/r";
    assert s[|s| - 1..] == "r" && s[|s| - 2..] == "/r" && s[|s| - 3..] == "e/r";
  }

  const TWICE := "a%253Fb"
  const ONCE := "a%3Fb"

  lemma DecodedOnce()
    ensures Decode(TWICE) == ONCE
  {
    hide Decode;
    NothingToDecode("3Fb");
    DecodesEscape("3Fb");
    DecodesPlain('a', "%253Fb");
    assert TWICE == ['a'] + "%253Fb" && "%253Fb" == "%25" + "3Fb" && ONCE == ['a'] + ("%" + "3Fb");
  }

  lemma NothingToDecode(s: string)
    requires '%' !in s
    ensures Decode(s) == s
  {
    DecodeFixedIff(s);
  }

  lemma DecodesEscape(rest: string)
    ensures Decode("%25" + rest) == "%" + Decode(rest)
  {
    var s := "%25" + rest;
    assert EscapeAt(s, 0) && s[3..] == rest;
    assert (HexValue('2') * 16 + HexValue('5')) as char == '%';
  }

  lemma DecodesPlain(c: char, rest: string)
    requires c != '%'
    ensures Decode([c] + rest) == [c] + Decode(rest)
  {
    assert ([c] + rest)[1..] == rest;
  }

  lemma TwicePath()
    ensures AssetPath(TWICE) == Ok(ONCE) && Utf8(ONCE) && IsBytes(ONCE)
  {
    hide Decode, BeforeQuery, Utf8, IsBytes;
    DecodedOnce();
    assert TWICE[0] == 'a' && '?' !in TWICE && '#' !in TWICE && '\\' !in TWICE && '\\' !in ONCE;
    BeforeQueryIs(TWICE);
    AsciiIsUtf8(ONCE);
    assert !IsExternal(TWICE);
  }

  lemma OnceIsSegment()
    ensures IsSegment(ONCE) && !IsAbsolute(ONCE) && !MeansItself(ONCE)
  {
    assert EscapeAt(ONCE, 1);
  }

  lemma OncePlace()
    ensures InTree([], Components(ONCE)) == Some([ONCE]) && Join([ONCE], "/") == ONCE
  {
    hide InTree, Split, Join;
    OnceIsSegment();
    UnfoldJoin([ONCE], "/");
    assert TrimMatches(ONCE, "/") == ONCE;
    SplitJoinChar([ONCE], '/');
    assert [] + [ONCE] == [ONCE];
    InTreeOfSegments([], [ONCE]);
  }

  lemma TwiceIsNotLeft()
    ensures !ShouldLeave(TWICE)
  {
    var start := TrimSpaceStart(TWICE);
    assert start == TWICE;
    TrimmedEnd(TWICE);
    var trimmed := TrimSpace(TWICE);
    assert trimmed == TrimSpaceEnd(TWICE) && trimmed != "" && trimmed[0] == 'a';
    hide TrimSpace;
    assert AsciiLower(trimmed)[0] == 'a';
  }

  lemma OncePath()
    ensures FromParts(["r"] + [ONCE]) == "/drive/r/a%3Fb" && "/drive/r/a%3Fb" != "/drive/r"
  {
    hide FromParts, Tail, Join, Normalize;
    PlainRoot();
    OncePlace();
    ChildText(["r"], [ONCE]);
    OnceText();
  }

  lemma OnceText()
    ensures ("/drive/r" + "/") + ONCE == "/drive/r/a%3Fb" && "/drive/r/a%3Fb" != "/drive/r"
  {
    assert |"/drive/r/a%3Fb"| > |"/drive/r"|;
  }

  lemma OnceIsRelative()
    ensures Relative("/drive/r/a%3Fb", "/drive/r") == ONCE
  {
    hide FromParts, Tail, Join, Normalize, Relative, InTree, Components;
    PlainRoot();
    OncePlace();
    OncePath();
    OnceIsSegment();
    RelativeOfChild(["r"], [ONCE]);
  }

  /** A file whose name looks like an escape: the reference resolves to it, but its rewritten URL does not lead
      back, being decoded once more. */
  lemma DecodedTwiceHappens()
    ensures Resolve("/drive/r", "/drive/r", TWICE) == Ok("/drive/r/a%3Fb")
    ensures Serve(RewriteUrl("src", TWICE, "/drive/r", "/drive/r")) != Some(Ok("/drive/r/a%3Fb"))
  {
    hide Resolve, Serve, RewriteUrl, Normalize, FromParts, AssetPath, InTree, Components, MeansItself, ShouldLeave, IsExternalWeb, Utf8;
    PlainRoot();
    PlainRootEnd();
    TwicePath();
    OncePlace();
    OnceIsSegment();
    OncePath();
    OnceIsRelative();
    TwiceIsNotLeft();
    assert ["r"] + [] == ["r"];
    ResolvesInTree("/drive/r", "/drive/r", TWICE, ["r"], []);
    assert AsciiLower("src")[0] == 's';
    RewrittenUrlComesBack("src", TWICE, "/drive/r", ["r"], []);
  }
}
