/** The lexical contract on measured coverage paths: which texts are canonical
    absolute POSIX paths, and which of them name a trusted source file. */
module MeasuredPaths {

  datatype Category = Canonical | Checkout | SystemSite

  datatype PathError =
    | NotAbsolute | NotLexicallyCanonical
    | BadOwner | OutsideLayouts | OutsideRoots | NotPython

  datatype Parsed<+T> = Ok(value: T) | Err(error: PathError)

  // ----- splitting -----

  function Split(text: string): (r: seq<string>)
    ensures r != []
  {
    if text == "" then [""]
    else
      var rest := Split(text[1..]);
      if text[0] == '/' then [""] + rest else [[text[0]] + rest[0]] + rest[1..]
  }

  function Join(parts: seq<string>): string
    requires parts != []
  {
    if |parts| == 1 then parts[0] else parts[0] + "/" + Join(parts[1..])
  }

  predicate NoSlash(part: string) {
    forall i | 0 <= i < |part| :: part[i] != '/'
  }

  lemma JoinCons(first: string, rest: seq<string>)
    requires rest != []
    ensures Join([first] + rest) == first + "/" + Join(rest)
  {
    assert ([first] + rest)[1..] == rest;
  }

  /** Putting a character in front of the first part puts it in front. */
  lemma JoinPrepend(c: char, parts: seq<string>)
    requires parts != []
    ensures Join([[c] + parts[0]] + parts[1..]) == [c] + Join(parts)
  {
    if |parts| > 1 {
      JoinCons([c] + parts[0], parts[1..]);
      Reassociate([c], parts[0], Join(parts[1..]));
    } else {
      assert [[c] + parts[0]] + parts[1..] == [[c] + parts[0]];
    }
  }

  lemma Reassociate(a: string, b: string, d: string)
    ensures a + b + "/" + d == a + (b + "/" + d)
  {
  }

  lemma {:induction false} JoinSplit(text: string)
    ensures Join(Split(text)) == text
  {
    if text != "" {
      var rest := Split(text[1..]);
      JoinSplit(text[1..]);
      assert text == [text[0]] + text[1..];
      if text[0] == '/' {
        JoinCons("", rest);
        assert "" + "/" + Join(rest) == [text[0]] + text[1..];
      } else {
        JoinPrepend(text[0], rest);
      }
    }
  }

  lemma {:induction false} SplitHasNoSlash(text: string, i: nat)
    requires i < |Split(text)|
    ensures NoSlash(Split(text)[i])
  {
    if text != "" {
      var rest := Split(text[1..]);
      if text[0] == '/' {
        if i > 0 {
          SplitHasNoSlash(text[1..], i - 1);
        }
      } else {
        SplitHasNoSlash(text[1..], i);
      }
    }
  }

  lemma {:induction false} SplitPart(part: string)
    requires NoSlash(part)
    ensures Split(part) == [part]
  {
    if part != "" {
      assert part[0] != '/';
      forall i | 0 <= i < |part[1..]| ensures part[1..][i] != '/' {
        assert part[1..][i] == part[i + 1];
      }
      SplitPart(part[1..]);
      assert part == [part[0]] + part[1..];
    }
  }

  lemma {:induction false} SplitFront(part: string, tail: string)
    requires NoSlash(part)
    ensures Split(part + "/" + tail) == [part] + Split(tail)
  {
    var text := part + "/" + tail;
    if part == "" {
      assert text[0] == '/' && text[1..] == tail;
    } else {
      assert part[0] != '/';
      forall i | 0 <= i < |part[1..]| ensures part[1..][i] != '/' {
        assert part[1..][i] == part[i + 1];
      }
      assert text[0] == part[0] && text[1..] == part[1..] + "/" + tail;
      SplitFront(part[1..], tail);
      assert part == [part[0]] + part[1..];
      assert ([part[1..]] + Split(tail))[1..] == Split(tail);
    }
  }

  lemma {:induction false} SplitJoin(parts: seq<string>)
    requires parts != [] && forall i | 0 <= i < |parts| :: NoSlash(parts[i])
    ensures Split(Join(parts)) == parts
  {
    if |parts| == 1 {
      SplitPart(parts[0]);
    } else {
      SplitJoin(parts[1..]);
      SplitFront(parts[0], Join(parts[1..]));
      assert parts == [parts[0]] + parts[1..];
    }
  }

  // ----- canonical absolute paths -----

  predicate CleanPart(part: string) {
    part != "" && part != "." && part != ".." && forall i | 0 <= i < |part| :: part[i] != '/' && part[i] != '\\' && part[i] != '\0'
  }

  predicate CleanParts(parts: seq<string>) {
    parts != [] && forall i | 0 <= i < |parts| :: CleanPart(parts[i])
  }

  function Parts(raw: string): Parsed<seq<string>> {
    if raw == "" || raw[0] != '/' || raw == "/" || '\\' in raw || '\0' in raw then Err(NotAbsolute)
    else
      var parts := Split(raw)[1..];
      if parts == [] || exists i | 0 <= i < |parts| :: parts[i] in ["", ".", ".."] then Err(NotLexicallyCanonical)
      else Ok(parts)
  }

  /** The spelling of a path. */
  function Spell(parts: seq<string>): string
    requires parts != []
  {
    "/" + Join(parts)
  }

  lemma {:induction false} CharsOfParts(parts: seq<string>, i: nat, k: nat) returns (at: nat)
    requires i < |parts| && k < |parts[i]|
    ensures at < |Join(parts)| && Join(parts)[at] == parts[i][k]
  {
    if |parts| == 1 {
      at := k;
    } else {
      var tail := parts[1..];
      ConcatAt(parts[0], Join(tail));
      at := k;
      if i > 0 {
        assert tail[i - 1] == parts[i];
        var later := CharsOfParts(tail, i - 1, k);
        assert Join(parts) == parts[0] + "/" + Join(tail);
        at := |parts[0]| + 1 + later;
      }
    }
  }

  lemma ConcatAt(a: string, b: string)
    ensures |a + "/" + b| == |a| + 1 + |b|
    ensures forall k | 0 <= k < |a| :: (a + "/" + b)[k] == a[k]
    ensures forall k | 0 <= k < |b| :: (a + "/" + b)[|a| + 1 + k] == b[k]
  {
  }

  lemma {:induction false} CharsOfJoin(parts: seq<string>, at: nat)
    requires CleanParts(parts) && at < |Join(parts)|
    ensures Join(parts)[at] != '\\' && Join(parts)[at] != '\0'
  {
    assert CleanPart(parts[0]);
    if |parts| > 1 && at > |parts[0]| {
      assert Join(parts)[at] == Join(parts[1..])[at - |parts[0]| - 1];
      CharsOfJoin(parts[1..], at - |parts[0]| - 1);
    }
  }

  /** A text is accepted exactly when it is the spelling of clean parts, and it
      then yields those parts: no other text spells the same place. */
  lemma PartsInvertsSpell(raw: string, parts: seq<string>)
    requires parts != []
    ensures Parts(raw) == Ok(parts) <==> CleanParts(parts) && raw == Spell(parts)
  {
    if Parts(raw) == Ok(parts) {
      AcceptedIsSpelled(raw, parts);
    }
    if CleanParts(parts) && raw == Spell(parts) {
      SpelledIsAccepted(parts);
    }
  }

  lemma AcceptedIsSpelled(raw: string, parts: seq<string>)
    requires Parts(raw) == Ok(parts)
    ensures parts != [] && CleanParts(parts) && raw == Spell(parts)
  {
    JoinSplit(raw);
    assert raw[1..] == raw[1..];
    assert Split(raw) == [""] + Split(raw[1..]);
    assert parts == Split(raw[1..]);
    JoinSplit(raw[1..]);
    assert raw == "/" + raw[1..];
    forall i | 0 <= i < |parts| ensures CleanPart(parts[i]) {
      SplitHasNoSlash(raw[1..], i);
      assert parts[i] !in ["", ".", ".."];
      forall k | 0 <= k < |parts[i]| ensures parts[i][k] != '\\' && parts[i][k] != '\0' {
        var at := CharsOfParts(parts, i, k);
        assert raw[at + 1] == parts[i][k];
        assert raw[at + 1] in raw;
      }
    }
  }

  lemma SpelledIsAccepted(parts: seq<string>)
    requires CleanParts(parts)
    ensures Parts(Spell(parts)) == Ok(parts)
  {
    var raw := Spell(parts);
    forall i | 0 <= i < |parts| ensures NoSlash(parts[i]) {
      assert CleanPart(parts[i]);
    }
    SplitJoin(parts);
    assert raw[1..] == Join(parts) && raw[0] == '/';
    assert Split(raw) == [""] + parts;
    forall at | 0 <= at < |raw| ensures raw[at] != '\\' && raw[at] != '\0' {
      if at > 0 {
        CharsOfJoin(parts, at - 1);
      }
    }
    assert parts[0] != "" && |Join(parts)| >= |parts[0]|;
    forall i | 0 <= i < |parts| ensures parts[i] !in ["", ".", ".."] {
      assert CleanPart(parts[i]);
    }
  }

  // ----- the trusted roots -----

  predicate OwnerChar(c: char) {
    'A' <= c <= 'Z' || 'a' <= c <= 'z' || '0' <= c <= '9' || c == '.' || c == '_' || c == '-'
  }

  /** `pytest-of-` and at least one owner character. */
  predicate IsOwner(part: string) {
    |part| > 10 && part[..10] == "pytest-of-" && forall i | 10 <= i < |part| :: OwnerChar(part[i])
  }

  const SOURCE_TAIL: seq<string> := ["src", "aoi_orgware"]
  const CHECKOUT_TAIL: seq<string> :=
    ["pytest-0", "test_standalone_gate_runs_from0", "checkout", "src", "aoi_orgware"]
  const SYSTEM_SITE_TAIL: seq<string> :=
    ["pytest-0", "test_real_system_site_packages0", "system-site", "lib", "python3.13", "site-packages", "aoi_orgware"]

  predicate IsPython(relative: seq<string>) {
    relative != [] && |relative[|relative| - 1]| >= 3
    && relative[|relative| - 1][|relative[|relative| - 1]| - 3..] == ".py"
  }

  function Placed(category: Category, relative: seq<string>): Parsed<(Category, seq<string>)> {
    if IsPython(relative) then Ok((category, relative)) else Err(NotPython)
  }

  function ClassifyTemporary(suffix: seq<string>): Parsed<(Category, seq<string>)> {
    if suffix == [] || !IsOwner(suffix[0]) then Err(BadOwner)
    else if [suffix[0]] + CHECKOUT_TAIL <= suffix then Placed(Checkout, suffix[1 + |CHECKOUT_TAIL|..])
    else if [suffix[0]] + SYSTEM_SITE_TAIL <= suffix then Placed(SystemSite, suffix[1 + |SYSTEM_SITE_TAIL|..])
    else Err(OutsideLayouts)
  }

  function Classify(raw: string, repoRoot: string, tempRoot: string): Parsed<(Category, seq<string>)> {
    match Parts(raw)
    case Err(e) => Err(e)
    case Ok(measured) =>
      match Parts(repoRoot)
      case Err(e) => Err(e)
      case Ok(repository) =>
        match Parts(tempRoot)
        case Err(e) => Err(e)
        case Ok(temporary) =>
          if repository + SOURCE_TAIL <= measured then Placed(Canonical, measured[|repository + SOURCE_TAIL|..])
          else if temporary <= measured then ClassifyTemporary(measured[|temporary|..])
          else Err(OutsideRoots)
  }

  /** The directory a category of sources lives in; the pytest owner is free. */
  function RootOf(category: Category, repository: seq<string>, temporary: seq<string>, owner: string): seq<string> {
    match category
    case Canonical => repository + SOURCE_TAIL
    case Checkout => temporary + [owner] + CHECKOUT_TAIL
    case SystemSite => temporary + [owner] + SYSTEM_SITE_TAIL
  }

  /** An accepted path is the exact spelling of a trusted root followed by the
      reported relative path, without any `.` or `..` on the way. */
  lemma ClassifiedIsUnderItsRoot(raw: string, repoRoot: string, tempRoot: string, owner: string)
    returns (found: string)
    requires Classify(raw, repoRoot, tempRoot).Ok?
    ensures Parts(repoRoot).Ok? && Parts(tempRoot).Ok?
    ensures var (category, relative) := Classify(raw, repoRoot, tempRoot).value;
      && IsPython(relative)
      && CleanParts(RootOf(category, Parts(repoRoot).value, Parts(tempRoot).value, found) + relative)
      && raw == Spell(RootOf(category, Parts(repoRoot).value, Parts(tempRoot).value, found) + relative)
      && (category.Canonical? || IsOwner(found))
  {
    hide Parts, CleanParts, Spell, IsPython, IsOwner, Join;
    var measured, repository, temporary := Parts(raw).value, Parts(repoRoot).value, Parts(tempRoot).value;
    AcceptedIsSpelled(raw, measured);
    var (category, relative) := Classify(raw, repoRoot, tempRoot).value;
    found := owner;
    if repository + SOURCE_TAIL <= measured {
      RestOf(repository + SOURCE_TAIL, measured);
    } else {
      RestOf(temporary, measured);
      found := measured[|temporary|..][0];
      TemporarySpelling(measured[|temporary|..], category, relative);
      var tail := if category.Checkout? then CHECKOUT_TAIL else SYSTEM_SITE_TAIL;
      Regroup(temporary, [found], tail, relative);
    }
  }

  lemma RestOf<T>(prefix: seq<T>, whole: seq<T>)
    requires prefix <= whole
    ensures whole == prefix + whole[|prefix|..]
  {
  }

  lemma Regroup<T>(a: seq<T>, b: seq<T>, c: seq<T>, d: seq<T>)
    ensures a + (b + c + d) == a + b + c + d
  {
  }

  lemma TemporarySpelling(suffix: seq<string>, category: Category, relative: seq<string>)
    requires ClassifyTemporary(suffix) == Ok((category, relative))
    ensures suffix != [] && IsOwner(suffix[0]) && IsPython(relative)
    ensures category.Checkout? ==> suffix == [suffix[0]] + CHECKOUT_TAIL + relative
    ensures category.SystemSite? ==> suffix == [suffix[0]] + SYSTEM_SITE_TAIL + relative
    ensures !category.Canonical?
  {
    hide IsPython, IsOwner, CHECKOUT_TAIL, SYSTEM_SITE_TAIL;
    if [suffix[0]] + CHECKOUT_TAIL <= suffix {
      RestOf([suffix[0]] + CHECKOUT_TAIL, suffix);
    } else {
      RestOf([suffix[0]] + SYSTEM_SITE_TAIL, suffix);
    }
  }

  /** Every Python file under a trusted root is accepted in the category of that
      root; the repository's own sources win where roots overlap. */
  lemma UnderRootIsClassified(repoRoot: string, tempRoot: string, category: Category, owner: string, relative: seq<string>)
    requires Parts(repoRoot).Ok? && Parts(tempRoot).Ok?
    requires CleanParts(RootOf(category, Parts(repoRoot).value, Parts(tempRoot).value, owner) + relative)
    requires IsPython(relative) && (category.Canonical? || IsOwner(owner))
    requires !category.Canonical? ==>
      !(Parts(repoRoot).value + SOURCE_TAIL <= RootOf(category, Parts(repoRoot).value, Parts(tempRoot).value, owner) + relative)
    ensures Classify(Spell(RootOf(category, Parts(repoRoot).value, Parts(tempRoot).value, owner) + relative), repoRoot, tempRoot)
            == Ok((category, relative))
  {
    hide Parts, CleanParts, Spell, IsPython, IsOwner, Join, CHECKOUT_TAIL, SYSTEM_SITE_TAIL, SOURCE_TAIL, ClassifyTemporary;
    var repository, temporary := Parts(repoRoot).value, Parts(tempRoot).value;
    var measured := RootOf(category, repository, temporary, owner) + relative;
    SpelledIsAccepted(measured);
    if category.Canonical? {
      DropPrefix(repository + SOURCE_TAIL, relative);
    } else {
      var tail := if category.Checkout? then CHECKOUT_TAIL else SYSTEM_SITE_TAIL;
      Regroup(temporary, [owner], tail, relative);
      DropPrefix(temporary, [owner] + tail + relative);
      TemporaryPlaced(category, owner, relative);
    }
  }

  lemma DropPrefix<T>(prefix: seq<T>, rest: seq<T>)
    ensures prefix <= prefix + rest && (prefix + rest)[|prefix|..] == rest
  {
  }

  lemma TemporaryPlaced(category: Category, owner: string, relative: seq<string>)
    requires IsOwner(owner) && IsPython(relative) && !category.Canonical?
    ensures ClassifyTemporary([owner] + (if category.Checkout? then CHECKOUT_TAIL else SYSTEM_SITE_TAIL) + relative)
            == Ok((category, relative))
  {
    hide IsPython, IsOwner, CHECKOUT_TAIL, SYSTEM_SITE_TAIL;
    var tail := if category.Checkout? then CHECKOUT_TAIL else SYSTEM_SITE_TAIL;
    var suffix := [owner] + tail + relative;
    DropPrefix([owner] + tail, relative);
    assert |[owner] + tail| == 1 + |tail|;
    if category.SystemSite? {
      LayoutsDiffer();
      assert suffix[2] == SYSTEM_SITE_TAIL[1];
      assert ([owner] + CHECKOUT_TAIL)[2] == CHECKOUT_TAIL[1];
    }
  }

  lemma LayoutsDiffer()
    ensures |CHECKOUT_TAIL| > 1 && |SYSTEM_SITE_TAIL| > 1 && CHECKOUT_TAIL[1] != SYSTEM_SITE_TAIL[1]
  {
    assert CHECKOUT_TAIL[1][5] != SYSTEM_SITE_TAIL[1][5];
  }
}
