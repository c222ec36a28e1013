/** The Chief's global options may be written anywhere on the command line.
    Before parsing, they are hoisted to the front; the command word is then
    located behind them. */
module ChiefOptions {

  const CHIEF_OPTIONS: set<string> :=
    {"--chief-session-id", "--chief-epoch", "--chief-token", "--chief-credential-file"}

  /** The option's value is the next item. */
  predicate TakesNext(item: string) {
    item in CHIEF_OPTIONS
  }

  /** The option's value is glued on with an equals sign. */
  predicate CarriesValue(item: string) {
    exists option | option in CHIEF_OPTIONS :: option + "=" <= item
  }

  // ----- what the normaliser is meant to do: a stable partition -----

  /** For each position of `raw`: is the item there an option or an option's value? */
  function Marks(raw: seq<string>): (marks: seq<bool>)
    ensures |marks| == |raw|
  {
    if raw == [] then []
    else if TakesNext(raw[0]) then
      if |raw| > 1 then [true, true] + Marks(raw[2..]) else [true]
    else [CarriesValue(raw[0])] + Marks(raw[1..])
  }

  /** The items of `raw` whose mark is `wanted`, in their original order. */
  function Selected<T>(raw: seq<T>, marks: seq<bool>, wanted: bool): seq<T>
    requires |raw| == |marks|
  {
    if raw == [] then []
    else (if marks[0] == wanted then [raw[0]] else []) + Selected(raw[1..], marks[1..], wanted)
  }

  function Globals(raw: seq<string>): seq<string> {
    Selected(raw, Marks(raw), true)
  }

  function Rest(raw: seq<string>): seq<string> {
    Selected(raw, Marks(raw), false)
  }

  function Normalized(raw: seq<string>): seq<string> {
    Globals(raw) + Rest(raw)
  }

  /** The last item is an option still waiting for its value. */
  predicate Dangling(raw: seq<string>) {
    raw != [] &&
    if TakesNext(raw[0]) then |raw| == 1 || Dangling(raw[2..]) else Dangling(raw[1..])
  }

  predicate AllPlain(items: seq<string>) {
    forall i | 0 <= i < |items| :: !TakesNext(items[i]) && !CarriesValue(items[i])
  }

  lemma SelectedAppend<T>(a: seq<T>, ma: seq<bool>, b: seq<T>, mb: seq<bool>, wanted: bool)
    requires |a| == |ma| && |b| == |mb|
    ensures Selected(a + b, ma + mb, wanted) == Selected(a, ma, wanted) + Selected(b, mb, wanted)
  {
    if a == [] {
      assert a + b == b && ma + mb == mb;
    } else {
      assert (a + b)[1..] == a[1..] + b && (ma + mb)[1..] == ma[1..] + mb;
      SelectedAppend(a[1..], ma[1..], b, mb, wanted);
    }
  }

  lemma {:induction false} SelectedIsPermutation<T>(raw: seq<T>, marks: seq<bool>)
    requires |raw| == |marks|
    ensures multiset(Selected(raw, marks, true)) + multiset(Selected(raw, marks, false)) == multiset(raw)
  {
    if raw != [] {
      SelectedIsPermutation(raw[1..], marks[1..]);
      assert raw == [raw[0]] + raw[1..];
    }
  }

  /** Where the selected items come from: strictly increasing positions. */
  lemma {:induction false} SelectedKeepsOrder<T>(raw: seq<T>, marks: seq<bool>, wanted: bool) returns (from: seq<nat>)
    requires |raw| == |marks|
    ensures |from| == |Selected(raw, marks, wanted)|
    ensures forall k | 0 <= k < |from| ::
              from[k] < |raw| && marks[from[k]] == wanted && Selected(raw, marks, wanted)[k] == raw[from[k]]
    ensures forall j, k | 0 <= j < k < |from| :: from[j] < from[k]
  {
    from := [];
    if raw != [] {
      var later := SelectedKeepsOrder(raw[1..], marks[1..], wanted);
      from := Shifted(raw, marks, later);
      if marks[0] == wanted {
        from := [0] + from;
      }
    }
  }

  lemma Shifted<T>(raw: seq<T>, marks: seq<bool>, later: seq<nat>) returns (from: seq<nat>)
    requires |raw| == |marks| > 0
    requires forall k | 0 <= k < |later| :: later[k] < |raw| - 1
    requires forall j, k | 0 <= j < k < |later| :: later[j] < later[k]
    ensures |from| == |later|
    ensures forall k | 0 <= k < |from| :: 0 < from[k] < |raw|
    ensures forall k | 0 <= k < |from| :: raw[from[k]] == raw[1..][later[k]] && marks[from[k]] == marks[1..][later[k]]
    ensures forall j, k | 0 <= j < k < |from| :: from[j] < from[k]
  {
    from := seq(|later|, k requires 0 <= k < |later| => later[k] + 1);
  }

  /** Hoisting loses nothing and invents nothing: the options and the rest are
      each taken from the input in its order, and nothing left in the rest is
      an option. */
  lemma NormalizedIsStablePartition(raw: seq<string>) returns (hoisted: seq<nat>, kept: seq<nat>)
    ensures multiset(Normalized(raw)) == multiset(raw)
    ensures AllPlain(Rest(raw))
    ensures |Normalized(raw)| == |hoisted| + |kept|
    ensures forall k | 0 <= k < |hoisted| :: hoisted[k] < |raw| && Normalized(raw)[k] == raw[hoisted[k]]
    ensures forall k | 0 <= k < |kept| :: kept[k] < |raw| && Normalized(raw)[|hoisted| + k] == raw[kept[k]]
    ensures forall j, k | 0 <= j < k < |hoisted| :: hoisted[j] < hoisted[k]
    ensures forall j, k | 0 <= j < k < |kept| :: kept[j] < kept[k]
    ensures forall j, k | 0 <= j < |hoisted| && 0 <= k < |kept| :: hoisted[j] != kept[k]
  {
    SelectedIsPermutation(raw, Marks(raw));
    RestIsPlain(raw);
    hoisted := SelectedKeepsOrder(raw, Marks(raw), true);
    kept := SelectedKeepsOrder(raw, Marks(raw), false);
  }

  // ----- one complete token at a time -----

  lemma UnfoldPair(raw: seq<string>)
    requires |raw| > 1 && TakesNext(raw[0])
    ensures Globals(raw) == raw[..2] + Globals(raw[2..])
    ensures Rest(raw) == Rest(raw[2..])
  {
    assert raw == raw[..2] + raw[2..];
    SelectedAppend(raw[..2], [true, true], raw[2..], Marks(raw[2..]), true);
    SelectedAppend(raw[..2], [true, true], raw[2..], Marks(raw[2..]), false);
    assert raw[..2][1..] == [raw[1]];
    assert Selected(raw[..2], [true, true], true) == raw[..2];
    assert Selected(raw[..2], [true, true], false) == [];
  }

  lemma UnfoldSingle(raw: seq<string>)
    requires raw != [] && !TakesNext(raw[0])
    ensures CarriesValue(raw[0]) ==> Globals(raw) == [raw[0]] + Globals(raw[1..]) && Rest(raw) == Rest(raw[1..])
    ensures !CarriesValue(raw[0]) ==> Globals(raw) == Globals(raw[1..]) && Rest(raw) == [raw[0]] + Rest(raw[1..])
  {
    assert Marks(raw)[1..] == Marks(raw[1..]);
  }

  lemma UnfoldDangling(raw: seq<string>)
    requires |raw| == 1 && TakesNext(raw[0])
    ensures Globals(raw) == raw && Rest(raw) == []
  {
    assert raw[1..] == [] && Marks(raw) == [true];
    assert Selected(raw, [true], true) == [raw[0]] + Selected(raw[1..], [true][1..], true);
    assert Selected(raw, [true], false) == Selected(raw[1..], [true][1..], false) == [];
  }

  lemma {:induction false} RestIsPlain(raw: seq<string>)
    ensures AllPlain(Rest(raw))
  {
    if raw == [] {
    } else if TakesNext(raw[0]) {
      if |raw| > 1 {
        UnfoldPair(raw);
        RestIsPlain(raw[2..]);
      } else {
        UnfoldDangling(raw);
      }
    } else {
      UnfoldSingle(raw);
      RestIsPlain(raw[1..]);
    }
  }

  lemma {:induction false} PlainStays(rest: seq<string>)
    requires AllPlain(rest)
    ensures Globals(rest) == [] && Rest(rest) == rest && !Dangling(rest)
    ensures Located(rest) == CommandWord(rest)
  {
    if rest != [] {
      UnfoldSingle(rest);
      PlainStays(rest[1..]);
    }
  }

  lemma ReadBackPair(pair: seq<string>, behind: seq<string>)
    requires |pair| == 2 && TakesNext(pair[0])
    ensures Globals(pair + behind) == pair + Globals(behind)
    ensures Rest(pair + behind) == Rest(behind)
    ensures Dangling(pair + behind) <==> Dangling(behind)
    ensures Located(pair + behind) == Located(behind)
  {
    var whole := pair + behind;
    assert whole[..2] == pair && whole[2..] == behind;
    UnfoldPair(whole);
  }

  lemma ReadBackSingle(item: string, behind: seq<string>)
    requires !TakesNext(item) && CarriesValue(item)
    ensures Globals([item] + behind) == [item] + Globals(behind)
    ensures Rest([item] + behind) == Rest(behind)
    ensures Dangling([item] + behind) <==> Dangling(behind)
    ensures Located([item] + behind) == Located(behind)
  {
    var whole := [item] + behind;
    assert whole[1..] == behind;
    UnfoldSingle(whole);
  }

  lemma ReadBackPlain(item: string, behind: seq<string>)
    requires !TakesNext(item) && !CarriesValue(item)
    ensures Globals([item] + behind) == Globals(behind)
    ensures Rest([item] + behind) == [item] + Rest(behind)
    ensures Dangling([item] + behind) <==> Dangling(behind)
  {
    var whole := [item] + behind;
    assert whole[1..] == behind;
    UnfoldSingle(whole);
  }

  lemma ReadBackDangling(raw: seq<string>, rest: seq<string>)
    requires |raw| == 1 && TakesNext(raw[0]) && AllPlain(rest)
    ensures var taken := if rest != [] then 1 else 0;
            Globals(Globals(raw) + rest) == Globals(raw) + rest[..taken] &&
            Rest(Globals(raw) + rest) == rest[taken..] &&
            Located(Globals(raw) + rest) == CommandWord(rest[taken..])
    ensures Dangling(Globals(raw) + rest) <==> rest == []
  {
    UnfoldDangling(raw);
    if rest == [] {
      assert raw + rest == raw;
    } else {
      PlainStays(rest[1..]);
      ReadBackPair(raw + rest[..1], rest[1..]);
      assert raw + rest == (raw + rest[..1]) + rest[1..];
    }
  }

  /** Reading the options back in front of plain items: a dangling option
      swallows the first plain item as its value, and nothing else moves. */
  ghost predicate ReadsBack(globals: seq<string>, dangling: bool, rest: seq<string>) {
    var taken := if dangling && rest != [] then 1 else 0;
    && Globals(globals + rest) == globals + rest[..taken]
    && Rest(globals + rest) == rest[taken..]
    && (Dangling(globals + rest) <==> dangling && rest == [])
    && Located(globals + rest) == CommandWord(rest[taken..])
  }

  lemma ReadsBackBehindPair(pair: seq<string>, globals: seq<string>, dangling: bool, rest: seq<string>)
    requires |pair| == 2 && TakesNext(pair[0])
    requires ReadsBack(globals, dangling, rest)
    ensures ReadsBack(pair + globals, dangling, rest)
  {
    hide CarriesValue, Globals, Rest, Located, Dangling;
    ReadBackPair(pair, globals + rest);
    assert pair + globals + rest == pair + (globals + rest);
  }

  lemma ReadsBackBehindSingle(item: string, globals: seq<string>, dangling: bool, rest: seq<string>)
    requires !TakesNext(item) && CarriesValue(item)
    requires ReadsBack(globals, dangling, rest)
    ensures ReadsBack([item] + globals, dangling, rest)
  {
    hide CarriesValue, Globals, Rest, Located, Dangling;
    ReadBackSingle(item, globals + rest);
    assert [item] + globals + rest == [item] + (globals + rest);
  }

  lemma {:induction false} GlobalsReadBack(raw: seq<string>, rest: seq<string>)
    requires AllPlain(rest)
    ensures ReadsBack(Globals(raw), Dangling(raw), rest)
  {
    if raw == [] {
      PlainStays(rest);
      assert Globals(raw) + rest == rest;
    } else if TakesNext(raw[0]) && |raw| > 1 {
      GlobalsReadBack(raw[2..], rest);
      UnfoldPair(raw);
      ReadsBackBehindPair(raw[..2], Globals(raw[2..]), Dangling(raw[2..]), rest);
    } else if TakesNext(raw[0]) {
      ReadBackDangling(raw, rest);
    } else {
      GlobalsReadBack(raw[1..], rest);
      UnfoldSingle(raw);
      if CarriesValue(raw[0]) {
        ReadsBackBehindSingle(raw[0], Globals(raw[1..]), Dangling(raw[1..]), rest);
      }
    }
  }

  /** Normalising a normalised command line changes nothing, dangling or not. */
  lemma {:induction false} NormalizedIsIdempotent(raw: seq<string>)
    ensures Normalized(Normalized(raw)) == Normalized(raw)
  {
    RestIsPlain(raw);
    GlobalsReadBack(raw, Rest(raw));
  }

  // ----- where the command word is -----

  /** The command word among items that hold no Chief option. */
  function CommandWord(rest: seq<string>): string {
    if rest == [] then ""
    else if rest[0] == "--" then (if |rest| > 1 then rest[1] else "")
    else if "-" <= rest[0] then CommandWord(rest[1..])
    else rest[0]
  }

  /** The command word as the scan over a whole command line finds it. */
  function Located(argv: seq<string>): string {
    if argv == [] then ""
    else if TakesNext(argv[0]) then (if |argv| > 1 then Located(argv[2..]) else "")
    else if CarriesValue(argv[0]) then Located(argv[1..])
    else if argv[0] == "--" then (if |argv| > 1 then argv[1] else "")
    else if "-" <= argv[0] then Located(argv[1..])
    else argv[0]
  }

  /** What is located after normalising: the command word of the plain items,
      except that a dangling option hides the first of them. */
  lemma {:induction false} LocatedAfterNormalizing(raw: seq<string>)
    ensures Located(Normalized(raw)) ==
            CommandWord(if Dangling(raw) && Rest(raw) != [] then Rest(raw)[1..] else Rest(raw))
  {
    RestIsPlain(raw);
    GlobalsReadBack(raw, Rest(raw));
  }

  ghost predicate Appends(before: seq<string>, after: seq<string>) {
    && Globals(before + after) == Globals(before) + Globals(after)
    && Rest(before + after) == Rest(before) + Rest(after)
    && (Dangling(before + after) <==> Dangling(after))
  }

  lemma AppendBehindPair(before: seq<string>, after: seq<string>)
    requires |before| > 1 && TakesNext(before[0]) && Appends(before[2..], after)
    ensures Appends(before, after)
  {
    hide CarriesValue, Globals, Rest, Located, Dangling;
    var inner := before[2..];
    UnfoldPair(before);
    ReadBackPair(before[..2], inner + after);
    assert before + after == before[..2] + (inner + after);
  }

  lemma AppendBehindSingle(head: string, tail: seq<string>, after: seq<string>)
    requires !TakesNext(head) && CarriesValue(head) && Appends(tail, after)
    ensures Appends([head] + tail, after)
  {
    hide CarriesValue, Globals, Rest, Located, Dangling;
    ReadBackSingle(head, tail);
    ReadBackSingle(head, tail + after);
    assert [head] + tail + after == [head] + (tail + after);
  }

  lemma AppendBehindPlain(head: string, tail: seq<string>, after: seq<string>)
    requires !TakesNext(head) && !CarriesValue(head) && Appends(tail, after)
    ensures Appends([head] + tail, after)
  {
    hide CarriesValue, Globals, Rest, Located, Dangling;
    ReadBackPlain(head, tail);
    ReadBackPlain(head, tail + after);
    assert [head] + tail + after == [head] + (tail + after);
  }

  lemma {:induction false} AppendComplete(before: seq<string>, after: seq<string>)
    requires !Dangling(before)
    ensures Appends(before, after)
  {
    if before == [] {
      assert before + after == after;
    } else if TakesNext(before[0]) {
      AppendComplete(before[2..], after);
      AppendBehindPair(before, after);
    } else {
      AppendComplete(before[1..], after);
      if CarriesValue(before[0]) {
        AppendBehindSingle(before[0], before[1..], after);
      } else {
        AppendBehindPlain(before[0], before[1..], after);
      }
      assert before == [before[0]] + before[1..];
    }
  }

  /** Hoisting leaves the command where it was if and only if no option dangles,
      or nothing is left for it to swallow, or the item it swallows is not what
      the command is found by. */
  lemma {:induction false} CommandIsKeptIff(raw: seq<string>)
    ensures Located(Normalized(raw)) == CommandWord(Rest(raw)) <==>
            !Dangling(raw) || Rest(raw) == [] || CommandWord(Rest(raw)[1..]) == CommandWord(Rest(raw))
  {
    LocatedAfterNormalizing(raw);
  }

  /** Complete options may be inserted between complete tokens anywhere, whether
      or not the line ends in a dangling one: the located command and the plain
      items stay the same. */
  lemma {:induction false} InsertionDoesNotMoveTheCommand(before: seq<string>, inserted: seq<string>, after: seq<string>)
    requires !Dangling(before) && !Dangling(inserted) && Rest(inserted) == []
    ensures Located(Normalized(before + inserted + after)) == Located(Normalized(before + after))
  {
    var with, without := before + inserted + after, before + after;
    assert Rest(with) == Rest(without) && (Dangling(with) <==> Dangling(without)) by {
      AppendComplete(before, inserted);
      AppendComplete(before + inserted, after);
      AppendComplete(before, after);
    }
    LocatedAfterNormalizing(with);
    LocatedAfterNormalizing(without);
  }

  /** Without the proviso the claim fails: a dangling option takes the command
      word for its value. */
  lemma DanglingOptionHidesTheCommand()
    ensures Located(Normalized(["doctor"])) == "doctor"
    ensures Located(Normalized(["doctor", "--chief-epoch"])) == ""
  {
    var plain := ["doctor"];
    var raw := ["doctor", "--chief-epoch"];
    assert !CarriesValue("doctor") by {
      forall option | option in CHIEF_OPTIONS ensures !(option + "=" <= "doctor") {
        assert option[0] == '-';
        assert (option + "=")[0] == '-';
      }
    }
    PlainStays(plain);
    LocatedAfterNormalizing(plain);
    UnfoldSingle(raw);
    assert raw[1..] == ["--chief-epoch"];
    UnfoldDangling(raw[1..]);
    assert Dangling(raw[1..]) && Dangling(raw);
    assert Rest(raw) == ["doctor"] && Rest(raw)[1..] == [];
    LocatedAfterNormalizing(raw);
    assert "doctor"[0] == 'd' && !("-" <= "doctor");
    assert CommandWord(["doctor"]) == "doctor";
  }

  // ----- the loops -----

  method NormalizeChiefGlobalOptions(rawArgv: seq<string>) returns (argv: seq<string>)
    ensures argv == Normalized(rawArgv)
  {
    var globalItems: seq<string>, remaining: seq<string> := [], [];
    var index := 0;
    while index < |rawArgv|
      invariant 0 <= index <= |rawArgv|
      invariant globalItems + Globals(rawArgv[index..]) == Globals(rawArgv)
      invariant remaining + Rest(rawArgv[index..]) == Rest(rawArgv)
    {
      var item := rawArgv[index];
      ghost var ahead := rawArgv[index..];
      if TakesNext(item) {
        globalItems := globalItems + [item];
        if index + 1 < |rawArgv| {
          UnfoldPair(ahead);
          assert ahead[2..] == rawArgv[index + 2..] && ahead[..2] == [item, rawArgv[index + 1]];
          globalItems := globalItems + [rawArgv[index + 1]];
          index := index + 2;
        } else {
          UnfoldDangling(ahead);
          index := index + 1;
        }
      } else {
        UnfoldSingle(ahead);
        assert ahead[1..] == rawArgv[index + 1..];
        if CarriesValue(item) {
          globalItems := globalItems + [item];
        } else {
          remaining := remaining + [item];
        }
        index := index + 1;
      }
    }
    argv := globalItems + remaining;
  }

  method CommandFromNormalizedArgv(rawArgv: seq<string>) returns (command: string)
    ensures command == Located(rawArgv)
  {
    var index := 0;
    while index < |rawArgv|
      invariant 0 <= index
      invariant Located(rawArgv) == if index <= |rawArgv| then Located(rawArgv[index..]) else ""
    {
      var item := rawArgv[index];
      ghost var ahead := rawArgv[index..];
      assert ahead[1..] == rawArgv[index + 1..];
      if TakesNext(item) {
        assert |ahead| > 1 ==> ahead[2..] == rawArgv[index + 2..];
        index := index + 2;
      } else if CarriesValue(item) {
        index := index + 1;
      } else if item == "--" {
        return if index + 1 < |rawArgv| then rawArgv[index + 1] else "";
      } else if "-" <= item {
        index := index + 1;
      } else {
        return item;
      }
    }
    return "";
  }
}
