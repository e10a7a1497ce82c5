/*
 * The command-line scanner every program carries a copy of
 * (`getParameters` / `get_InitParms`), written once with the parts that vary
 * between the copies as parameters: the table of flags that take a value, the
 * optional minimum argument count, and the optional help check. The program
 * name stripping of the benchmark programs lives here too.
 *
 * `argv` is a sequence of strings whose element 0 is the program name, so
 * `argc` is its length. A flag's value is recorded as its text; converting it
 * to a number is the business of the program that reads it.
 */
module Argv {
  import opened RvStatus

  /** `*argv[i] == '-'`: an empty argument reads its terminating NUL, which is not a dash. */
  predicate StartsWithDash(s: string)
  {
    |s| > 0 && s[0] == '-'
  }

  /** `strrchr(s, c)`: the position of the last `c` in `s`, if any. */
  function LastIndexOf(s: string, c: char): (r: Option<nat>)
    ensures r.None? <==> c !in s
    ensures r.Some? ==> r.value < |s| && s[r.value] == c && c !in s[r.value + 1..]
  {
    if |s| == 0 then None
    else if s[|s| - 1] == c then Some(|s| - 1)
    else
      var r := LastIndexOf(s[..|s| - 1], c);
      assert s == s[..|s| - 1] + [s[|s| - 1]];
      if r.Some? then
        assert s[r.value + 1..] == s[..|s| - 1][r.value + 1..] + [s[|s| - 1]];
        r
      else r
  }

  /** The separators the client programs strip at, in the order they try them. */
  const CLIENT_SEPARATORS: seq<char> := ['\\', '/', ']']

  /** The server tries only the first two. */
  const SERVER_SEPARATORS: seq<char> := ['\\', '/']

  /**
   * The program name as the benchmark programs keep it: the part after the
   * last occurrence of the first separator (in the order given) that occurs in
   * `argv[0]`, or the whole of `argv[0]` when none occurs.
   */
  function StripProgramName(name: string, separators: seq<char>): (r: string)
    ensures |r| <= |name| && r == name[|name| - |r|..]
    ensures (forall k :: 0 <= k < |separators| ==> separators[k] !in name) ==> r == name
  {
    if separators == [] then name
    else match LastIndexOf(name, separators[0])
      case Some(p) => name[p + 1..]
      case None =>
        var r := StripProgramName(name, separators[1..]);
        assert (forall k :: 0 <= k < |separators| ==> separators[k] !in name) ==>
               (forall k :: 0 <= k < |separators[1..]| ==> separators[1..][k] !in name);
        r
  }

  /**
   * When the `k`-th separator is the first one that occurs in the name, the
   * result is what follows its last occurrence: it is preceded by that
   * separator and contains none of it.
   */
  lemma {:induction false} StripAtFirstPresentSeparator(name: string, separators: seq<char>, k: nat)
    requires k < |separators| && separators[k] in name
    requires forall j :: 0 <= j < k ==> separators[j] !in name
    ensures var r := StripProgramName(name, separators);
            separators[k] !in r && |r| < |name| && name[|name| - |r| - 1] == separators[k]
  {
    if k == 0 {
      var p := LastIndexOf(name, separators[0]).value;
      assert StripProgramName(name, separators) == name[p + 1..];
    } else {
      assert separators[0] !in name;
      assert LastIndexOf(name, separators[0]).None?;
      assert StripProgramName(name, separators) == StripProgramName(name, separators[1..]);
      var rest := separators[1..];
      assert rest[k - 1] == separators[k];
      forall j | 0 <= j < k - 1
        ensures rest[j] !in name
      {
        assert rest[j] == separators[j + 1];
      }
      StripAtFirstPresentSeparator(name, rest, k - 1);
    }
  }

  /** The client keeps what follows the last `]` of a VMS-style name; the server, which has no `]` case, keeps the whole name. */
  lemma {:induction false} BracketOnlyStrippedByClients()
    ensures StripProgramName("[a]b", CLIENT_SEPARATORS) == "b"
    ensures StripProgramName("[a]b", SERVER_SEPARATORS) == "[a]b"
  {
    var s := "[a]b";
    assert s[0] != '\\' && s[1] != '\\' && s[2] != '\\' && s[3] != '\\';
    assert s[0] != '/' && s[1] != '/' && s[2] != '/' && s[3] != '/';
    assert LastIndexOf(s, '\\') == None;
    assert LastIndexOf(s, '/') == None;
    assert s[3] != ']' && s[2] == ']';
    assert LastIndexOf(s, ']') == Some(2);
  }

  /** A first argument of `-h`, `-help` or `?` asks for the usage text. */
  predicate HelpRequested(args: seq<string>)
  {
    1 < |args| && (args[1] == "-h" || args[1] == "-help" || args[1] == "?")
  }

  /** Why a scanner called `usage()`, which prints the usage text and exits with status 1. */
  datatype UsageReason = TooFewArguments | HelpFlag | UnknownFlag(flag: string) | MissingValue(flag: string)

  /** The result of a scan: the index of the first argument left unscanned and the value text of every flag seen, or `usage()`. */
  datatype Scan = Scanned(next: nat, values: map<string, string>) | Usage(reason: UsageReason)

  /** What varies between the copies of the scanner. */
  datatype ScanTable = ScanTable(flags: set<string>, minParms: nat, helpCheck: bool)

  /** The flags that configure the transport, accepted by every program. */
  const TRANSPORT_FLAGS: set<string> := {"-service", "-network", "-daemon"}

  /**
   * The pair loop `while (i + 2 <= argc && *argv[i] == '-')`: a flag of the
   * table consumes itself and its value; any other dash argument with a value
   * after it is `usage()`.
   */
  function ScanFrom(args: seq<string>, flags: set<string>, i: nat, values: map<string, string>): Scan
    decreases |args| - i
  {
    if i + 2 <= |args| && StartsWithDash(args[i]) then
      if args[i] in flags then ScanFrom(args, flags, i + 2, values[args[i] := args[i + 1]])
      else Usage(UnknownFlag(args[i]))
    else Scanned(i, values)
  }

  /** The whole scanner: the minimum-count check, the help check, then the pair loop from index 1. */
  function Scanner(args: seq<string>, table: ScanTable): Scan
  {
    if |args| < table.minParms then Usage(TooFewArguments)
    else if table.helpCheck && HelpRequested(args) then Usage(HelpFlag)
    else ScanFrom(args, table.flags, 1, map[])
  }

  /** The scanner as the programs run it. */
  method RunScanner(args: seq<string>, table: ScanTable) returns (r: Scan)
    ensures r == Scanner(args, table)
  {
    if |args| < table.minParms {
      return Usage(TooFewArguments);
    }
    if table.helpCheck && 1 < |args| && (args[1] == "-h" || args[1] == "-help" || args[1] == "?") {
      return Usage(HelpFlag);
    }
    var i := 1;
    var values: map<string, string> := map[];
    while i + 2 <= |args| && StartsWithDash(args[i])
      invariant ScanFrom(args, table.flags, i, values) == ScanFrom(args, table.flags, 1, map[])
      decreases |args| - i
    {
      if args[i] !in table.flags {
        return Usage(UnknownFlag(args[i]));
      }
      values := values[args[i] := args[i + 1]];
      i := i + 2;
    }
    return Scanned(i, values);
  }

  /** Every position the loop visited from `i` up to `k` held a flag of the table, followed by a value. */
  predicate KnownPairs(args: seq<string>, flags: set<string>, i: nat, k: nat)
  {
    forall j :: i <= j < k && (j - i) % 2 == 0 ==> j + 1 < |args| && args[j] in flags && StartsWithDash(args[j])
  }

  /**
   * Where the loop stops: at an index of the same parity as where it started,
   * no further than `argc`, on an argument that is not a dash flag with a
   * value after it, having consumed only flags of the table.
   */
  lemma {:induction false} ScanStops(args: seq<string>, flags: set<string>, i: nat, values: map<string, string>)
    ensures ScanFrom(args, flags, i, values).Scanned? ==>
      var n := ScanFrom(args, flags, i, values).next;
      i <= n && (n - i) % 2 == 0 && (i < n ==> n <= |args|) &&
      !(n + 2 <= |args| && StartsWithDash(args[n])) &&
      KnownPairs(args, flags, i, n)
    decreases |args| - i
  {
    if i + 2 <= |args| && StartsWithDash(args[i]) && args[i] in flags {
      ScanStops(args, flags, i + 2, values[args[i] := args[i + 1]]);
    }
  }

  /** The first dash argument outside the table that still has a value after it is reported to `usage()`. */
  lemma {:induction false} ScanRejectsUnknown(args: seq<string>, flags: set<string>, i: nat, values: map<string, string>, k: nat)
    requires i <= k && (k - i) % 2 == 0 && KnownPairs(args, flags, i, k)
    requires k + 2 <= |args| && StartsWithDash(args[k]) && args[k] !in flags
    ensures ScanFrom(args, flags, i, values) == Usage(UnknownFlag(args[k]))
    decreases k - i
  {
    if i < k {
      assert args[i] in flags && StartsWithDash(args[i]);
      ScanRejectsUnknown(args, flags, i + 2, values[args[i] := args[i + 1]], k);
    }
  }

  /** The pair loop fails only that way: an unknown flag, found where the loop stood with a value after it. */
  lemma {:induction false} ScanUsageIsUnknownFlag(args: seq<string>, flags: set<string>, i: nat, values: map<string, string>)
    ensures ScanFrom(args, flags, i, values).Usage? ==>
      exists k :: i <= k && (k - i) % 2 == 0 && KnownPairs(args, flags, i, k) &&
        k + 2 <= |args| && StartsWithDash(args[k]) && args[k] !in flags &&
        ScanFrom(args, flags, i, values) == Usage(UnknownFlag(args[k]))
    decreases |args| - i
  {
    var r := ScanFrom(args, flags, i, values);
    if r.Usage? {
      if args[i] in flags {
        var values' := values[args[i] := args[i + 1]];
        ScanUsageIsUnknownFlag(args, flags, i + 2, values');
        var k :| i + 2 <= k && (k - (i + 2)) % 2 == 0 && KnownPairs(args, flags, i + 2, k) &&
          k + 2 <= |args| && StartsWithDash(args[k]) && args[k] !in flags &&
          ScanFrom(args, flags, i + 2, values') == Usage(UnknownFlag(args[k]));
        assert KnownPairs(args, flags, i, k);
      } else {
        assert KnownPairs(args, flags, i, i);
      }
    }
  }

  /** The flag/value pairs at positions `i`, `i + 2`, ... below `n`, in argument order. */
  function Pairs(args: seq<string>, i: nat, n: nat): seq<(string, string)>
    requires i <= n && (n - i) % 2 == 0 && (i < n ==> n <= |args|)
    decreases n - i
  {
    if i == n then [] else [(args[i], args[i + 1])] + Pairs(args, i + 2, n)
  }

  /** The value of the last pair naming flag `f`: the reference reading of "the last occurrence wins", scanning from the end. */
  function LastValue(pairs: seq<(string, string)>, f: string): Option<string>
  {
    if pairs == [] then None
    else if pairs[|pairs| - 1].0 == f then Some(pairs[|pairs| - 1].1)
    else LastValue(pairs[..|pairs| - 1], f)
  }

  /** `LastValue` is absent exactly when no pair names `f`, and otherwise is the value of a pair naming `f` that no later pair names. */
  lemma {:induction false} LastValueIsLastOccurrence(pairs: seq<(string, string)>, f: string)
    ensures LastValue(pairs, f).None? <==> forall j :: 0 <= j < |pairs| ==> pairs[j].0 != f
    ensures LastValue(pairs, f).Some? ==>
      exists j :: 0 <= j < |pairs| && pairs[j] == (f, LastValue(pairs, f).value) &&
                  forall j' :: j < j' < |pairs| ==> pairs[j'].0 != f
  {
    if pairs != [] {
      var last := |pairs| - 1;
      if pairs[last].0 == f {
        assert LastValue(pairs, f) == Some(pairs[last].1);
        assert pairs[last] == (f, pairs[last].1);
      } else {
        var init := pairs[..last];
        LastValueIsLastOccurrence(init, f);
        assert LastValue(pairs, f) == LastValue(init, f);
        assert forall j :: 0 <= j < |init| ==> pairs[j] == init[j];
        var r := LastValue(init, f);
        if r.Some? {
          var j :| 0 <= j < |init| && init[j] == (f, r.value) && forall j' :: j < j' < |init| ==> init[j'].0 != f;
          assert pairs[j] == (f, r.value);
        }
      }
    }
  }

  function Lookup(m: map<string, string>, f: string): Option<string>
  {
    if f in m then Some(m[f]) else None
  }

  function Override(later: Option<string>, earlier: Option<string>): Option<string>
  {
    if later.Some? then later else earlier
  }

  lemma {:induction false} LastValueCons(p: (string, string), pairs: seq<(string, string)>, f: string)
    ensures LastValue([p] + pairs, f) == Override(LastValue(pairs, f), if p.0 == f then Some(p.1) else None)
    decreases |pairs|
  {
    if pairs != [] {
      var s := [p] + pairs;
      assert s[|s| - 1] == pairs[|pairs| - 1];
      assert s[..|s| - 1] == [p] + pairs[..|pairs| - 1];
      LastValueCons(p, pairs[..|pairs| - 1], f);
    }
  }

  /**
   * Each flag ends with the value of its last occurrence among the pairs the
   * loop consumed; a flag that never occurred keeps the value it had before.
   */
  lemma {:induction false} ScanLastWins(args: seq<string>, flags: set<string>, i: nat, values: map<string, string>)
    ensures ScanFrom(args, flags, i, values).Scanned? ==>
      var r := ScanFrom(args, flags, i, values);
      i <= r.next && (r.next - i) % 2 == 0 && (i < r.next ==> r.next <= |args|) &&
      forall f :: Lookup(r.values, f) == Override(LastValue(Pairs(args, i, r.next), f), Lookup(values, f))
    decreases |args| - i
  {
    var r := ScanFrom(args, flags, i, values);
    ScanStops(args, flags, i, values);
    if r.Scanned? && i + 2 <= |args| && StartsWithDash(args[i]) && args[i] in flags {
      var values' := values[args[i] := args[i + 1]];
      ScanLastWins(args, flags, i + 2, values');
      forall f ensures Lookup(r.values, f) == Override(LastValue(Pairs(args, i, r.next), f), Lookup(values, f)) {
        LastValueCons((args[i], args[i + 1]), Pairs(args, i + 2, r.next), f);
      }
    }
  }

  /**
   * The scanner's result from a fresh start: the next index is odd and at
   * most `argc`, and every flag holds the value of its last occurrence.
   */
  lemma ScannerResult(args: seq<string>, table: ScanTable)
    requires |args| >= 1
    ensures Scanner(args, table).Scanned? ==>
      var r := Scanner(args, table);
      1 <= r.next <= |args| && r.next % 2 == 1 &&
      !(r.next + 2 <= |args| && StartsWithDash(args[r.next])) &&
      forall f :: Lookup(r.values, f) == LastValue(Pairs(args, 1, r.next), f)
  {
    ScanStops(args, table.flags, 1, map[]);
    ScanLastWins(args, table.flags, 1, map[]);
  }

  /** After a successful scan, the value recorded for flag `f` is that of its last occurrence among the pairs scanned. */
  lemma ScannedValue(args: seq<string>, table: ScanTable, f: string)
    requires |args| >= 1 && Scanner(args, table).Scanned?
    ensures var r := Scanner(args, table);
      1 <= r.next <= |args| && (r.next - 1) % 2 == 0 &&
      Lookup(r.values, f) == LastValue(Pairs(args, 1, r.next), f)
  {
    ScannerResult(args, table);
  }
}
