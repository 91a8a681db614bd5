/** The log-file filters shared by the experiment scripts: copy the lines
    of a log that (positive filter) contain one of the given strings, or
    (negative filter) lack one of them, into a second file. The log is the
    sequence of its lines, each with its line terminator, and the output
    file is the sequence of lines written to it. */
module Logfile {
  import opened Wrappers
  import opened Text

  const POS_PREFIX: string := "pos_filtered_"
  const NEG_PREFIX: string := "neg_filtered_"

  /** Some filter of `fs` occurs in `lower`. */
  predicate AnyIn(lower: string, fs: seq<string>) {
    fs != [] && (AnyIn(lower, fs[..|fs| - 1]) || Contains(lower, fs[|fs| - 1]))
  }

  /** Some filter of `fs` does not occur in `lower`. */
  predicate AnyNotIn(lower: string, fs: seq<string>) {
    fs != [] && (AnyNotIn(lower, fs[..|fs| - 1]) || !Contains(lower, fs[|fs| - 1]))
  }

  lemma {:induction false} AnyInExists(lower: string, fs: seq<string>)
    ensures AnyIn(lower, fs) <==> exists k | 0 <= k < |fs| :: Contains(lower, fs[k])
  {
    if fs != [] {
      var init := fs[..|fs| - 1];
      AnyInExists(lower, init);
      assert forall k | 0 <= k < |init| :: init[k] == fs[k];
    }
  }

  lemma {:induction false} AnyNotInExists(lower: string, fs: seq<string>)
    ensures AnyNotIn(lower, fs) <==> exists k | 0 <= k < |fs| :: !Contains(lower, fs[k])
  {
    if fs != [] {
      var init := fs[..|fs| - 1];
      AnyNotInExists(lower, init);
      assert forall k | 0 <= k < |init| :: init[k] == fs[k];
    }
  }

  /** Some filter occurs in the lowercased line. */
  predicate Matches(line: string, filters: seq<string>) {
    AnyIn(Lower(line), filters)
  }

  /** Some filter does not occur in the lowercased line. */
  predicate Misses(line: string, filters: seq<string>) {
    AnyNotIn(Lower(line), filters)
  }

  /** The positive filter writes a line iff one of the filters occurs in
      the lowercased line; the negative one iff one of them does not. */
  lemma SelectsIff(line: string, filters: seq<string>)
    ensures Matches(line, filters) <==> exists k | 0 <= k < |filters| :: Contains(Lower(line), filters[k])
    ensures Misses(line, filters) <==> exists k | 0 <= k < |filters| :: !Contains(Lower(line), filters[k])
  {
    AnyInExists(Lower(line), filters);
    AnyNotInExists(Lower(line), filters);
  }

  /** A filter found in a prefix of the filters is found in all of them. */
  lemma {:induction false} AnyPrefix(lower: string, fs: seq<string>, j: nat)
    requires j <= |fs|
    ensures AnyIn(lower, fs[..j]) ==> AnyIn(lower, fs)
    ensures AnyNotIn(lower, fs[..j]) ==> AnyNotIn(lower, fs)
    decreases |fs|
  {
    if j < |fs| {
      assert fs[..|fs| - 1][..j] == fs[..j];
      AnyPrefix(lower, fs[..|fs| - 1], j);
    } else {
      assert fs[..j] == fs;
    }
  }

  datatype Mode = Positive | Negative

  predicate Selects(mode: Mode, line: string, filters: seq<string>) {
    match mode
    case Positive => Matches(line, filters)
    case Negative => Misses(line, filters)
  }

  /** The lines a filter writes, in input order. */
  function Keep(mode: Mode, lines: seq<string>, filters: seq<string>): (r: seq<string>)
    ensures |r| <= |lines|
  {
    if lines == [] then []
    else
      var last := lines[|lines| - 1];
      Keep(mode, lines[..|lines| - 1], filters) + (if Selects(mode, last, filters) then [last] else [])
  }

  /** A line is written iff it is in the log and the filter selects it. */
  lemma {:induction false} KeepMember(mode: Mode, lines: seq<string>, filters: seq<string>, line: string)
    ensures line in Keep(mode, lines, filters) <==> line in lines && Selects(mode, line, filters)
  {
    if lines != [] {
      var init := lines[..|lines| - 1];
      KeepMember(mode, init, filters, line);
      assert lines == init + [lines[|lines| - 1]];
    }
  }

  /** Filtering commutes with concatenation: each line is written at most
      once, unchanged, and in the order of the log. */
  lemma {:induction false} KeepAppend(mode: Mode, a: seq<string>, b: seq<string>, filters: seq<string>)
    ensures Keep(mode, a + b, filters) == Keep(mode, a, filters) + Keep(mode, b, filters)
  {
    if b != [] {
      var init := b[..|b| - 1];
      var last := b[|b| - 1];
      assert (a + b)[..|a + b| - 1] == a + init;
      assert (a + b)[|a + b| - 1] == last;
      KeepAppend(mode, a, init, filters);
      var tail := if Selects(mode, last, filters) then [last] else [];
      assert Keep(mode, a + b, filters) == Keep(mode, a + init, filters) + tail;
      assert Keep(mode, a, filters) + Keep(mode, init, filters) + tail
          == Keep(mode, a, filters) + (Keep(mode, init, filters) + tail);
    } else {
      assert a + b == a;
    }
  }

  /** One more line of the log. */
  lemma KeepStep(mode: Mode, lines: seq<string>, i: nat, filters: seq<string>)
    requires i < |lines|
    ensures Keep(mode, lines[..i + 1], filters) ==
      Keep(mode, lines[..i], filters) + if Selects(mode, lines[i], filters) then [lines[i]] else []
  {
    assert lines[..i + 1][..i] == lines[..i];
  }

  /** A single line is written exactly when the filter selects it. */
  lemma KeepOne(mode: Mode, line: string, filters: seq<string>)
    ensures Keep(mode, [line], filters) == if Selects(mode, line, filters) then [line] else []
  {
    assert [line][..0] == [];
  }

  /** With no filters, neither filter writes anything. */
  lemma {:induction false} KeepNoFilters(mode: Mode, lines: seq<string>)
    ensures Keep(mode, lines, []) == []
  {
    if lines != [] {
      KeepNoFilters(mode, lines[..|lines| - 1]);
    }
  }

  /** With one filter the negative filter keeps exactly the lines that
      lack it, and the positive filter exactly the lines that have it. */
  lemma SingleFilter(line: string, filter: string)
    ensures Selects(Negative, line, [filter]) <==> !Contains(Lower(line), filter)
    ensures Selects(Positive, line, [filter]) <==> Contains(Lower(line), filter)
  {
    var lower := Lower(line);
    assert [filter][..0] == [];
    assert AnyNotIn(lower, [filter]) <==> !Contains(lower, filter);
    assert AnyIn(lower, [filter]) <==> Contains(lower, filter);
  }

  predicate HasUpper(s: string) {
    exists i | 0 <= i < |s| :: 'A' <= s[i] <= 'Z'
  }

  /** Only the line is lowercased: a filter with an upper-case letter
      never occurs in it. */
  lemma UpperFilterNeverMatches(line: string, filter: string)
    requires HasUpper(filter)
    ensures !Contains(Lower(line), filter)
  {
    var lower := Lower(line);
    var i :| 0 <= i < |filter| && 'A' <= filter[i] <= 'Z';
    forall j | 0 <= j <= |lower| - |filter|
      ensures !OccursAt(lower, filter, j)
    {
      assert lower[j..j + |filter|][i] == lower[j + i];
      assert !('A' <= lower[j + i] <= 'Z');
    }
    ContainsOccurs(lower, filter);
  }

  /** So a positive filter made only of such strings writes nothing. */
  lemma {:induction false} UpperFiltersKeepNothing(lines: seq<string>, filters: seq<string>)
    requires forall k | 0 <= k < |filters| :: HasUpper(filters[k])
    ensures Keep(Positive, lines, filters) == []
  {
    if lines != [] {
      UpperFiltersKeepNothing(lines[..|lines| - 1], filters);
      var last := lines[|lines| - 1];
      forall k | 0 <= k < |filters|
        ensures !Contains(Lower(last), filters[k])
      {
        UpperFilterNeverMatches(last, filters[k]);
      }
      AnyInExists(Lower(last), filters);
    }
  }

  /** The position just after the last '/' of `p`, or 0. */
  function SplitPoint(p: string): (i: nat)
    ensures i <= |p| && '/' !in p[i..]
    ensures i > 0 ==> p[i - 1] == '/'
  {
    if p == [] then 0
    else if p[|p| - 1] == '/' then |p|
    else
      var i := SplitPoint(p[..|p| - 1]);
      assert p[i..] == p[..|p| - 1][i..] + [p[|p| - 1]];
      i
  }

  /** `os.path.basename`: what follows the last '/'. */
  function BaseName(p: string): (r: string)
    ensures |r| <= |p|
    ensures '/' !in r && p == p[..|p| - |r|] + r
  {
    p[SplitPoint(p)..]
  }

  predicate AllSlashes(s: string) {
    forall i | 0 <= i < |s| :: s[i] == '/'
  }

  /** `s.rstrip('/')`. */
  function StripSlashes(s: string): (r: string)
    ensures |r| <= |s| && r == s[..|r|]
    ensures r == [] || r[|r| - 1] != '/'
    ensures forall i | |r| <= i < |s| :: s[i] == '/'
  {
    if s == [] || s[|s| - 1] != '/' then s
    else
      var r := StripSlashes(s[..|s| - 1]);
      assert s[..|s| - 1][..|r|] == s[..|r|];
      r
  }

  /** `os.path.dirname`: up to the last '/', without trailing slashes
      unless it is made only of slashes. */
  function DirName(p: string): (r: string)
    ensures |r| <= |p| && r == p[..|r|]
  {
    var head := p[..SplitPoint(p)];
    if head != [] && !AllSlashes(head) then StripSlashes(head) else head
  }

  /** `os.path.join(a, b)` for a `b` that does not start with '/'. */
  function Join(a: string, b: string): (r: string)
    ensures a == [] || a[|a| - 1] == '/' ==> r == a + b
    ensures a != [] && a[|a| - 1] != '/' ==> r == a + "/" + b
  {
    if a == [] || a[|a| - 1] == '/' then a + b else a + "/" + b
  }

  /** The output path a filter picks when none is given: the file's
      directory joined with `prefix` and the file's base name. */
  function DefaultOutfile(file: string, prefix: string): string {
    Join(DirName(file), prefix + BaseName(file))
  }

  /** The default output lies in the log's own directory and is named by
      the prefix followed by the log's name. */
  lemma DefaultOutfileParts(file: string, prefix: string)
    requires '/' !in prefix
    ensures BaseName(DefaultOutfile(file, prefix)) == prefix + BaseName(file)
    ensures DirName(DefaultOutfile(file, prefix)) == DirName(file)
  {
    var d := DirName(file);
    var b := prefix + BaseName(file);
    var h := if d == [] || d[|d| - 1] == '/' then d else d + "/";
    var out := DefaultOutfile(file, prefix);
    assert out == h + b;
    assert h == [] || h[|h| - 1] == '/';
    AfterLastSlash(h, b);
    assert out[..SplitPoint(out)] == h;
    var head := file[..SplitPoint(file)];
    if head != [] && !AllSlashes(head) {
      var i :| 0 <= i < |head| && head[i] != '/';
      assert d == StripSlashes(head);
      assert d != [] && d[|d| - 1] != '/';
      assert h == d + "/";
      assert !AllSlashes(h) by {
        assert h[|d| - 1] != '/';
      }
      assert h[..|h| - 1] == d;
    }
  }

  /** The last '/' of `h + b` ends `h` when `h` ends with one and `b` has
      none. */
  lemma {:induction false} AfterLastSlash(h: string, b: string)
    requires h == [] || h[|h| - 1] == '/'
    requires '/' !in b
    ensures SplitPoint(h + b) == |h|
  {
    if b != [] {
      assert (h + b)[..|h + b| - 1] == h + b[..|b| - 1];
      AfterLastSlash(h, b[..|b| - 1]);
    } else {
      assert h + b == h;
    }
  }

  /** `filter_logfile_positiv`: write every line in which one of the
      filters occurs, once, as soon as the first such filter is found. */
  method FilterLogfilePositive(file: string, lines: seq<string>, contains: seq<string>, outfile: Option<string>)
    returns (path: string, written: seq<string>)
    ensures path == if outfile.Some? then outfile.value else DefaultOutfile(file, POS_PREFIX)
    ensures written == Keep(Positive, lines, contains)
  {
    path := if outfile.Some? then outfile.value else DefaultOutfile(file, POS_PREFIX);
    written := [];
    for i := 0 to |lines|
      invariant written == Keep(Positive, lines[..i], contains)
    {
      var out := PositiveLine(lines[i], contains);
      KeepStep(Positive, lines, i, contains);
      written := written + out;
    }
    assert lines[..|lines|] == lines;
  }

  /** The inner loop of `filter_logfile_positiv` for one line: skip the
      filters that do not occur, write the line at the first that does. */
  method PositiveLine(line: string, contains: seq<string>) returns (out: seq<string>)
    ensures out == if Matches(line, contains) then [line] else []
  {
    var lower := Lower(line);
    out := [];
    var j := 0;
    while j < |contains|
      invariant j <= |contains| && out == []
      invariant !AnyIn(lower, contains[..j])
    {
      assert contains[..j + 1][..j] == contains[..j];
      if !Contains(lower, contains[j]) {
        j := j + 1;
        continue;
      }
      AnyPrefix(lower, contains, j + 1);
      out := [line];
      break;
    }
    assert contains[..|contains|] == contains;
  }

  /** `filter_logfile_negative`: write every line that lacks one of the
      filters, once, as soon as the first such filter is found. */
  method FilterLogfileNegative(file: string, lines: seq<string>, contains: seq<string>, outfile: Option<string>)
    returns (path: string, written: seq<string>)
    ensures path == if outfile.Some? then outfile.value else DefaultOutfile(file, NEG_PREFIX)
    ensures written == Keep(Negative, lines, contains)
  {
    path := if outfile.Some? then outfile.value else DefaultOutfile(file, NEG_PREFIX);
    written := [];
    for i := 0 to |lines|
      invariant written == Keep(Negative, lines[..i], contains)
    {
      var out := NegativeLine(lines[i], contains);
      KeepStep(Negative, lines, i, contains);
      written := written + out;
    }
    assert lines[..|lines|] == lines;
  }

  /** The inner loop of `filter_logfile_negative` for one line: skip the
      filters that occur, write the line at the first that does not. */
  method NegativeLine(line: string, contains: seq<string>) returns (out: seq<string>)
    ensures out == if Misses(line, contains) then [line] else []
  {
    var lower := Lower(line);
    out := [];
    var j := 0;
    while j < |contains|
      invariant j <= |contains| && out == []
      invariant !AnyNotIn(lower, contains[..j])
    {
      assert contains[..j + 1][..j] == contains[..j];
      if Contains(lower, contains[j]) {
        j := j + 1;
        continue;
      }
      AnyPrefix(lower, contains, j + 1);
      out := [line];
      break;
    }
    assert contains[..|contains|] == contains;
  }
}
