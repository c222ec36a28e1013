/** The code of one interpreter: preparing an identity, replacing an inherited
    collector after a fork, and leaving with the selectors cleared. */
module ForkChild {
  import opened Wrappers

  const COVERAGE_CONFIG: string := "AOI_COVERAGE_PROCESS_START"
  const CURRENT_PRODUCER: string := "AOI_COVERAGE_CURRENT_PRODUCER_ID"
  const RUNTIME_PREFIX: string := "AOI_COVERAGE_RUNTIME_PREFIX"
  const FILE_BASE: string := "AOI_COVERAGE_FILE_BASE"
  const METADATA_ROOT: string := "AOI_COVERAGE_METADATA_ROOT"
  const FAMILY_TOKEN: string := "AOI_COVERAGE_TEST_FAMILY_TOKEN"
  const COVERAGE_FILE: string := "COVERAGE_FILE"
  const VENDOR_CONFIG: string := "COVERAGE_PROCESS_CONFIG"
  const VENDOR_START: string := "COVERAGE_PROCESS_START"

  const SELECTORS: seq<string> := [
    COVERAGE_CONFIG, CURRENT_PRODUCER, RUNTIME_PREFIX, FILE_BASE, METADATA_ROOT,
    FAMILY_TOKEN, COVERAGE_FILE, VENDOR_CONFIG, VENDOR_START]

  const PRODUCER_PREFIX: string := ".aoi2."

  type Environ = map<string, string>

  /** A collector of coverage.py: the file it saves to, and whether it saves by
      itself at exit. */
  datatype Collector = Collector(file: string, autoSave: bool)

  /** How the calls into the system and into coverage.py turn out. `base` is the
      canonical spelling of a file base, if it is an absolute `.coverage` in a
      private directory; `owner` says that the inherited collector is the one that
      coverage.py runs, with a plain saving switch. */
  datatype Calls = Calls(
    absolute: string -> bool,
    directory: string -> bool,
    base: string -> Option<string>,
    hex64: string -> bool,
    parentRecord: string -> bool,
    entropy: Option<string>,
    published: string -> bool,
    owner: bool,
    stops: bool,
    starts: bool)

  predicate NoSelectors(env: Environ) {
    forall i | 0 <= i < |SELECTORS| :: SELECTORS[i] !in env
  }

  /** The variables that are not selectors are untouched. */
  predicate OthersKept(before: Environ, after: Environ) {
    && (forall k | k in after && k !in SELECTORS :: k in before && before[k] == after[k])
    && forall k | k in before && k !in SELECTORS :: k in after
  }

  function OwnFile(base: string, id: string): string {
    base + PRODUCER_PREFIX + id
  }

  /** What a successful preparation has checked, in the environment it found. */
  predicate MayPrepare(env: Environ, calls: Calls, fork: bool) {
    && COVERAGE_CONFIG in env && calls.absolute(env[COVERAGE_CONFIG])
    && VENDOR_CONFIG !in env && VENDOR_START !in env
    && METADATA_ROOT in env && calls.directory(env[METADATA_ROOT])
    && FILE_BASE in env && calls.base(env[FILE_BASE]).Some?
    && (CURRENT_PRODUCER in env ==> calls.hex64(env[CURRENT_PRODUCER]) && calls.parentRecord(env[CURRENT_PRODUCER]))
    && (fork ==> CURRENT_PRODUCER in env)
    && (COVERAGE_FILE in env ==>
          var base := calls.base(env[FILE_BASE]).value;
          env[COVERAGE_FILE] == if CURRENT_PRODUCER in env then OwnFile(base, env[CURRENT_PRODUCER]) else base)
    && (FAMILY_TOKEN in env ==> calls.hex64(env[FAMILY_TOKEN]))
    && calls.entropy.Some? && calls.published(calls.entropy.value)
  }

  class Interpreter {
    var env: Environ
    var collector: Option<Collector>
    var exited: Option<nat>

    constructor (env: Environ, collector: Option<Collector>)
      ensures this.env == env && this.collector == collector && exited.None?
    {
      this.env, this.collector, exited := env, collector, None;
    }

    /** Pops every selector, one by one. */
    method ClearSelectors()
      modifies `env
      ensures NoSelectors(env) && OthersKept(old(env), env)
    {
      hide SELECTORS;
      for i := 0 to |SELECTORS|
        invariant forall k | 0 <= k < i :: SELECTORS[k] !in env
        invariant forall k | k in env :: k in old(env) && env[k] == old(env)[k]
        invariant forall k | k in old(env) && k !in SELECTORS :: k in env
      {
        env := env - {SELECTORS[i]};
      }
    }

    /** `stop_inherited_coverage`: the saving switch goes first, but a collector
        of doubtful ownership is left as it is. */
    method StopInherited(calls: Calls) returns (ok: bool)
      modifies `collector
      ensures ok <==> old(collector).Some? && calls.owner && calls.stops
      ensures ok ==> collector.None?
      ensures !ok ==>
        collector == if old(collector).Some? && calls.owner then Some(old(collector).value.(autoSave := false)) else old(collector)
    {
      if collector.None? || !calls.owner {
        return false;
      }
      collector := Some(collector.value.(autoSave := false));
      if !calls.stops {
        return false;
      }
      collector := None;
      return true;
    }

    /** `prepare_subprocess_coverage_attribution`: nothing changes unless every
        check passes and the receipt is published. */
    method Prepare(calls: Calls, fork: bool) returns (id: Option<string>)
      modifies `env
      ensures id.Some? <==> MayPrepare(old(env), calls, fork)
      ensures id.None? ==> env == old(env)
      ensures id.Some? ==>
        && id == calls.entropy
        && env == old(env)[COVERAGE_FILE := OwnFile(calls.base(old(env)[FILE_BASE]).value, id.value)][CURRENT_PRODUCER := id.value]
    {
      if COVERAGE_CONFIG !in env || !calls.absolute(env[COVERAGE_CONFIG]) {
        return None;
      }
      if VENDOR_CONFIG in env || VENDOR_START in env {
        return None;
      }
      if METADATA_ROOT !in env || !calls.directory(env[METADATA_ROOT]) {
        return None;
      }
      if FILE_BASE !in env || calls.base(env[FILE_BASE]).None? {
        return None;
      }
      var base := calls.base(env[FILE_BASE]).value;
      var inherited := base;
      if CURRENT_PRODUCER in env {
        var parent := env[CURRENT_PRODUCER];
        if !calls.hex64(parent) || !calls.parentRecord(parent) {
          return None;
        }
        inherited := OwnFile(base, parent);
      } else if fork {
        return None;
      }
      if COVERAGE_FILE in env && env[COVERAGE_FILE] != inherited {
        return None;
      }
      if calls.entropy.None? {
        return None;
      }
      var producer := calls.entropy.value;
      if FAMILY_TOKEN in env && !calls.hex64(env[FAMILY_TOKEN]) {
        return None;
      }
      if !calls.published(producer) {
        return None;
      }
      env := env[COVERAGE_FILE := OwnFile(base, producer)];
      env := env[CURRENT_PRODUCER := producer];
      return Some(producer);
    }

    /** `start_exact_coverage`: the vendor switch exists only during the call. */
    method StartExact(calls: Calls) returns (ok: bool)
      modifies `env, `collector
      ensures env == old(env)
      ensures ok <==>
        && COVERAGE_CONFIG in env && VENDOR_CONFIG !in env && VENDOR_START !in env
        && COVERAGE_FILE in env && calls.starts
      ensures ok ==> collector == Some(Collector(env[COVERAGE_FILE], true))
      ensures !ok ==> collector == old(collector)
    {
      if COVERAGE_CONFIG !in env || VENDOR_CONFIG in env || VENDOR_START in env {
        return false;
      }
      ghost var before := env;
      env := env[VENDOR_START := env[COVERAGE_CONFIG]];
      var started: Option<Collector> := None;
      if calls.starts && COVERAGE_FILE in env {
        started := Some(Collector(env[COVERAGE_FILE], true));
      }
      env := env - {VENDOR_START};
      assert env == before;
      if started.None? {
        return false;
      }
      collector := started;
      return true;
    }

    /** `_after_fork_child_attribution`: the child measures under an identity of
        its own, or it is gone, with 97 and no selector left; it never goes on
        with the collector of its parent. */
    method AfterForkChild(calls: Calls)
      requires exited.None?
      modifies this
      ensures exited.None? || exited == Some(97)
      ensures exited.None? <==>
        old(collector).Some? && calls.owner && calls.stops && MayPrepare(old(env), calls, true) && calls.starts
      ensures exited.None? ==>
        && collector == Some(Collector(OwnFile(calls.base(old(env)[FILE_BASE]).value, calls.entropy.value), true))
        && env == old(env)[COVERAGE_FILE := collector.value.file][CURRENT_PRODUCER := calls.entropy.value]
      ensures exited.Some? ==> NoSelectors(env) && OthersKept(old(env), env)
    {
      SelectorNames();
      var ok := StopInherited(calls);
      if ok {
        var id := Prepare(calls, true);
        if id.Some? {
          ok := StartExact(calls);
          if ok {
            return;
          }
        }
      }
      ghost var between := env;
      ClearSelectors();
      exited := Some(97);
    }

    /** `attempt_subprocess_coverage_attribution` of a fresh interpreter, with the
        hard failure of its caller. */
    method StartFresh(calls: Calls)
      requires exited.None?
      modifies this
      ensures exited.None? || exited == Some(97)
      ensures exited.None? <==> old(collector).None? && MayPrepare(old(env), calls, false) && calls.starts
      ensures exited.None? ==>
        && collector == Some(Collector(OwnFile(calls.base(old(env)[FILE_BASE]).value, calls.entropy.value), true))
        && env == old(env)[COVERAGE_FILE := collector.value.file][CURRENT_PRODUCER := calls.entropy.value]
      ensures exited.Some? ==> NoSelectors(env) && OthersKept(old(env), env)
    {
      SelectorNames();
      if collector.None? {
        var id := Prepare(calls, false);
        if id.Some? {
          var ok := StartExact(calls);
          if ok {
            return;
          }
        }
      }
      ClearSelectors();
      exited := Some(97);
    }

    /** `_flush_then_exit`: stops and saves, clears the selectors, and leaves with
        the given code, or with 97 when that fails. */
    method FlushThenExit(code: nat, saves: bool) returns (saved: Option<string>)
      requires exited.None?
      modifies this
      ensures exited == Some(if saved.Some? then code else 97)
      ensures saved == if old(collector).Some? && saves then Some(old(collector).value.file) else None
      ensures NoSelectors(env) && OthersKept(old(env), env)
    {
      saved := None;
      var exitCode := code;
      if collector.Some? && saves {
        saved := Some(collector.value.file);
        collector := None;
      } else {
        exitCode := 97;
      }
      ClearSelectors();
      exited := Some(exitCode);
    }
  }

  lemma SelectorNames()
    ensures COVERAGE_FILE in SELECTORS && CURRENT_PRODUCER in SELECTORS
    ensures COVERAGE_FILE == SELECTORS[6] && CURRENT_PRODUCER == SELECTORS[1]
  {
  }

  /** Two identities never name the same data file. */
  lemma OwnFilesDiffer(base: string, a: string, b: string)
    requires a != b
    ensures OwnFile(base, a) != OwnFile(base, b)
  {
    assert OwnFile(base, a)[|base| + |PRODUCER_PREFIX|..] == a;
    assert OwnFile(base, b)[|base| + |PRODUCER_PREFIX|..] == b;
  }
}
