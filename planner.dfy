/** `setBreakpoints` up to the point where the requests go out
    (runner.js:29-56): drop the interpreter and the tracer itself from the
    command line, resolve and read every remaining file, split it on '\n' and
    plan one `setbreakpoint` request per line, file by file. */
module Planner {
  import opened Wrappers
  import opened Debugger

  /** The suffix by which the tracer recognises its own script on the command line. */
  const RunnerSuffix: string := "/runner.js"

  /** `pat` occurs in `s` starting at index `j`. */
  predicate OccursAt(s: string, pat: string, j: int) {
    0 <= j && j + |pat| <= |s| && s[j..j + |pat|] == pat
  }

  /** The first index at or after `i` where `pat` occurs in `s`, or -1. */
  function SearchFrom(s: string, pat: string, i: nat): (r: int)
    ensures r == -1 || (i <= r && OccursAt(s, pat, r))
    ensures forall j :: i <= j && OccursAt(s, pat, j) ==> r != -1 && r <= j
    decreases |s| - i
  {
    if i + |pat| > |s| then -1
    else if s[i..i + |pat|] == pat then i
    else SearchFrom(s, pat, i + 1)
  }

  /** `s.indexOf(pat, from)`: the first occurrence at or after `from`, which
      is first clamped into `[0, |s|]`, or -1 when there is none. */
  function IndexOf(s: string, pat: string, from: int): (r: int)
    ensures var start := if from < 0 then 0 else if from > |s| then |s| else from;
            && (r == -1 || (start <= r && OccursAt(s, pat, r)))
            && (r == -1 <==> forall j :: start <= j ==> !OccursAt(s, pat, j))
  {
    var start := if from < 0 then 0 else if from > |s| then |s| else from;
    SearchFrom(s, pat, start)
  }

  predicate EndsWith(s: string, suffix: string) {
    |suffix| <= |s| && s[|s| - |suffix|..] == suffix
  }

  /** The `argv` filter (runner.js:35-38): an argument is a file to trace
      unless it is "node" or ends in "/runner.js"; the `indexOf` from
      `length - 10` finds the suffix exactly when the argument ends with it. */
  function IsTarget(x: string): (r: bool)
    ensures r <==> x != "node" && !EndsWith(x, RunnerSuffix)
  {
    var found := IndexOf(x, RunnerSuffix, |x| - |RunnerSuffix|);
    assert EndsWith(x, RunnerSuffix) ==> found != -1 by {
      if EndsWith(x, RunnerSuffix) {
        assert OccursAt(x, RunnerSuffix, |x| - |RunnerSuffix|);
      }
    }
    assert found != -1 ==> EndsWith(x, RunnerSuffix);
    x != "node" && found == -1
  }

  /** The arguments kept by the filter, in command-line order. */
  function Targets(argv: seq<string>): (r: seq<string>)
    ensures |r| <= |argv|
    ensures forall x :: x in r <==> x in argv && IsTarget(x)
  {
    if argv == [] then []
    else
      var rest := Targets(argv[1..]);
      assert forall x :: x in argv <==> x == argv[0] || x in argv[1..];
      if IsTarget(argv[0]) then [argv[0]] + rest else rest
  }

  /** Filtering a concatenation filters each part. */
  lemma {:induction false} TargetsAppend(a: seq<string>, b: seq<string>)
    ensures Targets(a + b) == Targets(a) + Targets(b)
  {
    if a == [] {
      assert a + b == b;
    } else {
      assert (a + b)[0] == a[0] && (a + b)[1..] == a[1..] + b;
      TargetsAppend(a[1..], b);
    }
  }

  /** Filtering arguments that are all dropped keeps nothing. */
  lemma {:induction false} TargetsNone(xs: seq<string>)
    requires forall x :: x in xs ==> !IsTarget(x)
    ensures Targets(xs) == []
  {
    if xs != [] {
      assert forall x :: x in xs[1..] ==> x in xs;
      TargetsNone(xs[1..]);
    }
  }

  function Count(s: string, c: char): (n: nat)
    ensures n <= |s|
    ensures n == 0 <==> c !in s
  {
    if s == [] then 0 else (if s[0] == c then 1 else 0) + Count(s[1..], c)
  }

  /** The pieces joined back with `sep` between them. */
  function Join(parts: seq<string>, sep: char): string
    requires |parts| >= 1
  {
    if |parts| == 1 then parts[0] else parts[0] + [sep] + Join(parts[1..], sep)
  }

  /** `s.split(sep)` for a one-character separator. */
  function Split(s: string, sep: char): seq<string> {
    if s == [] then [""]
    else
      var rest := Split(s[1..], sep);
      if s[0] == sep then [""] + rest
      else [[s[0]] + rest[0]] + rest[1..]
  }

  /** Splitting gives one more piece than there are separators; the empty
      string splits into one empty piece. */
  lemma {:induction false} SplitCount(s: string, sep: char)
    ensures |Split(s, sep)| == Count(s, sep) + 1
  {
    if s != [] {
      SplitCount(s[1..], sep);
    }
  }

  /** No piece holds the separator. */
  lemma {:induction false} SplitNoSeparator(s: string, sep: char)
    ensures forall p :: p in Split(s, sep) ==> sep !in p
  {
    if s != [] {
      SplitNoSeparator(s[1..], sep);
      var rest := Split(s[1..], sep);
      var r := Split(s, sep);
      if s[0] != sep {
        assert forall p :: p in r ==> p == r[0] || p in rest;
      }
    }
  }

  /** Joining the pieces gives the text back. */
  lemma {:induction false} SplitJoinsBack(s: string, sep: char)
    ensures |Split(s, sep)| >= 1
    ensures Join(Split(s, sep), sep) == s
  {
    if s != [] {
      SplitJoinsBack(s[1..], sep);
      var rest := Split(s[1..], sep);
      var r := Split(s, sep);
      if s[0] == sep {
        assert [sep] + Join(rest, sep) == s;
      } else {
        assert r[1..] == rest[1..];
        if |rest| > 1 {
          assert Join(r, sep) == r[0] + [sep] + Join(rest[1..], sep);
        }
      }
    }
  }

  /** Splitting undoes joining pieces that hold no separator. */
  lemma {:induction false} SplitJoin(parts: seq<string>, sep: char)
    requires |parts| >= 1 && forall p :: p in parts ==> sep !in p
    ensures Split(Join(parts, sep), sep) == parts
  {
    if |parts| == 1 {
      SplitPiece(parts[0], sep);
    } else {
      assert forall p :: p in parts[1..] ==> p in parts;
      SplitJoin(parts[1..], sep);
      SplitPieceThen(parts[0], sep, Join(parts[1..], sep));
    }
  }

  /** A piece without the separator splits into itself. */
  lemma {:induction false} SplitPiece(p: string, sep: char)
    requires sep !in p
    ensures Split(p, sep) == [p]
  {
    if p != [] {
      assert forall c :: c in p[1..] ==> c in p;
      SplitPiece(p[1..], sep);
      assert [p[0]] + p[1..] == p;
    }
  }

  /** A piece, the separator and a tail split into the piece and the tail's pieces. */
  lemma {:induction false} SplitPieceThen(p: string, sep: char, tail: string)
    requires sep !in p
    ensures Split(p + [sep] + tail, sep) == [p] + Split(tail, sep)
  {
    if p == [] {
      assert (p + [sep] + tail)[1..] == tail;
    } else {
      assert (p + [sep] + tail)[1..] == p[1..] + [sep] + tail;
      SplitPieceThen(p[1..], sep, tail);
      assert [p[0]] + p[1..] == p;
    }
  }

  /** A resolved target: its real path and the lines of its text. */
  datatype SourceFile = SourceFile(path: string, lines: seq<string>)

  /** The path resolves and the file it resolves to can be read. */
  predicate Readable(f: string, realpath: map<string, string>, contents: map<string, string>) {
    f in realpath && realpath[f] in contents
  }

  /** The file a readable target resolves to. */
  function Resolved(f: string, realpath: map<string, string>, contents: map<string, string>): SourceFile
    requires Readable(f, realpath, contents)
  {
    SourceFile(realpath[f], Split(contents[realpath[f]], '\n'))
  }

  /** `fs.realpathSync` and `fs.readFileSync` for every target, in order
      (runner.js:41-42); a target that does not resolve or cannot be read
      throws, and its name is the error. */
  function Resolve(targets: seq<string>, realpath: map<string, string>, contents: map<string, string>)
    : Result<seq<SourceFile>, string>
  {
    if targets == [] then Ok([])
    else if !Readable(targets[0], realpath, contents) then Err(targets[0])
    else
      match Resolve(targets[1..], realpath, contents)
      case Err(e) => Err(e)
      case Ok(rest) => Ok([Resolved(targets[0], realpath, contents)] + rest)
  }

  /** Resolution succeeds exactly when every target is readable, and then
      gives each target's file in order; otherwise it fails with the first
      unreadable target. */
  lemma {:induction false} ResolveOutcome(targets: seq<string>, realpath: map<string, string>, contents: map<string, string>)
    ensures var r := Resolve(targets, realpath, contents);
            && (r.Ok? <==> forall i :: 0 <= i < |targets| ==> Readable(targets[i], realpath, contents))
            && (r.Ok? ==>
                  && |r.value| == |targets|
                  && forall i :: 0 <= i < |targets| ==> r.value[i] == Resolved(targets[i], realpath, contents))
            && (r.Err? ==>
                  exists i ::
                    && 0 <= i < |targets| && targets[i] == r.error
                    && !Readable(targets[i], realpath, contents)
                    && forall j :: 0 <= j < i ==> Readable(targets[j], realpath, contents))
  {
    if targets != [] && Readable(targets[0], realpath, contents) {
      var tail := targets[1..];
      ResolveOutcome(tail, realpath, contents);
      assert forall i :: 1 <= i < |targets| ==> targets[i] == tail[i - 1];
      var r := Resolve(targets, realpath, contents);
      if r.Err? {
        var i :| 0 <= i < |tail| && tail[i] == r.error && !Readable(tail[i], realpath, contents) &&
                 forall j :: 0 <= j < i ==> Readable(tail[j], realpath, contents);
        assert targets[i + 1] == r.error;
        assert forall j :: 1 <= j < i + 1 ==> Readable(targets[j], realpath, contents);
      } else {
        assert forall i :: 0 <= i < |tail| ==> Readable(tail[i], realpath, contents);
      }
    }
  }

  /** One request for each of the lines `0 .. n-1` of `path`, in order. */
  function LineRequests(path: string, n: nat): (r: seq<Request>)
    ensures |r| == n
    ensures forall l :: 0 <= l < n ==> r[l] == SetBreakpoint(path, l)
  {
    if n == 0 then [] else LineRequests(path, n - 1) + [SetBreakpoint(path, n - 1)]
  }

  /** One request per line of one file, lines counted from 0 (runner.js:44-55). */
  function FileRequests(file: SourceFile): seq<Request> {
    LineRequests(file.path, |file.lines|)
  }

  /** All files' requests, file after file; every one sets a breakpoint. */
  function Requests(files: seq<SourceFile>): (r: seq<Request>)
    ensures forall q :: 0 <= q < |r| ==> r[q].SetBreakpoint?
  {
    if files == [] then [] else FileRequests(files[0]) + Requests(files[1..])
  }

  /** The number of requests planned for the files before `k`. */
  function Before(files: seq<SourceFile>, k: nat): nat
    requires k <= |files|
  {
    if k == 0 then 0 else Before(files, k - 1) + |files[k - 1].lines|
  }

  /** The request for line `l` of file `k` sits after all requests of the
      files before it: the plan is ordered by file, then by line. */
  lemma {:induction false} RequestsAt(files: seq<SourceFile>, k: nat, l: nat)
    requires k < |files| && l < |files[k].lines|
    ensures Before(files, k) + l < |Requests(files)|
    ensures Requests(files)[Before(files, k) + l] == SetBreakpoint(files[k].path, l)
  {
    var head := FileRequests(files[0]);
    var tail := Requests(files[1..]);
    assert Requests(files) == head + tail;
    assert |head| == |files[0].lines|;
    if k == 0 {
      assert Before(files, k) == 0;
      assert head[l] == SetBreakpoint(files[0].path, l);
      assert (head + tail)[l] == head[l];
      assert l < |head + tail|;
    } else {
      BeforeShift(files, k);
      assert files[1..][k - 1] == files[k];
      RequestsAt(files[1..], k - 1, l);
      var x := Before(files[1..], k - 1) + l;
      assert tail[x] == SetBreakpoint(files[k].path, l);
      assert Before(files, k) + l == |head| + x;
      assert (head + tail)[|head| + x] == tail[x];
      assert |head| + x < |head + tail|;
    }
  }

  /** Counting from the second file drops the first file's lines. */
  lemma {:induction false} BeforeShift(files: seq<SourceFile>, k: nat)
    requires 1 <= |files| && k <= |files|
    ensures Before(files, k) == if k == 0 then 0 else |files[0].lines| + Before(files[1..], k - 1)
  {
    if k > 1 {
      BeforeShift(files, k - 1);
    }
  }

  /** There is one request per line of every file. */
  lemma {:induction false} RequestsLength(files: seq<SourceFile>)
    ensures |Requests(files)| == Before(files, |files|)
  {
    if files != [] {
      RequestsLength(files[1..]);
      BeforeShift(files, |files|);
    }
  }

  /** A request is planned exactly for a line that exists in a resolved file. */
  lemma {:induction false} RequestsMember(files: seq<SourceFile>, target: string, line: nat)
    ensures SetBreakpoint(target, line) in Requests(files) <==>
              exists k :: 0 <= k < |files| && files[k].path == target && line < |files[k].lines|
  {
    if files != [] {
      RequestsMember(files[1..], target, line);
      var req := SetBreakpoint(target, line);
      assert req in Requests(files) <==> req in FileRequests(files[0]) || req in Requests(files[1..]);
      if req in FileRequests(files[0]) {
        var i :| 0 <= i < |FileRequests(files[0])| && FileRequests(files[0])[i] == req;
      }
      if files[0].path == target && line < |files[0].lines| {
        assert FileRequests(files[0])[line] == req;
      }
      assert forall k :: 1 <= k < |files| ==> files[k] == files[1..][k - 1];
    }
  }

  /** Distinct real paths give a plan without duplicate requests. */
  lemma {:induction false} RequestsDistinct(files: seq<SourceFile>)
    requires forall i, j :: 0 <= i < j < |files| ==> files[i].path != files[j].path
    ensures forall p, q :: 0 <= p < q < |Requests(files)| ==> Requests(files)[p] != Requests(files)[q]
  {
    if files != [] {
      var head := FileRequests(files[0]);
      var tail := Requests(files[1..]);
      RequestsDistinct(files[1..]);
      forall q | 0 <= q < |tail|
        ensures tail[q].target != files[0].path
      {
        var t := tail[q];
        assert t in tail;
        RequestsMember(files[1..], t.target, t.line);
        var k :| 0 <= k < |files[1..]| && files[1..][k].path == t.target && t.line < |files[1..][k].lines|;
        assert files[k + 1].path == t.target;
      }
      forall p, q | 0 <= p < q < |head + tail|
        ensures (head + tail)[p] != (head + tail)[q]
      {
        if q < |head| {
          assert head[p].line != head[q].line;
        } else if p >= |head| {
          assert (head + tail)[p] == tail[p - |head|];
        } else {
          assert (head + tail)[q] == tail[q - |head|];
        }
      }
    }
  }

  /** The plan for a command line: an error naming the first target that
      cannot be resolved or read, otherwise every line of every target. */
  function Plan(argv: seq<string>, realpath: map<string, string>, contents: map<string, string>)
    : Result<seq<Request>, string>
  {
    match Resolve(Targets(argv), realpath, contents)
    case Err(e) => Err(e)
    case Ok(files) => Ok(Requests(files))
  }

  /** Arguments the filter drops contribute nothing to the plan. */
  lemma PlanIgnoresDropped(argv: seq<string>, dropped: seq<string>, realpath: map<string, string>, contents: map<string, string>)
    requires forall x :: x in dropped ==> !IsTarget(x)
    ensures Plan(argv + dropped, realpath, contents) == Plan(argv, realpath, contents)
  {
    TargetsAppend(argv, dropped);
    TargetsNone(dropped);
    assert Targets(argv) + [] == Targets(argv);
  }

  /** The inner `lines.forEach` (runner.js:44-55): one request pushed per
      line index, in order. */
  method PushLineRequests(requests: seq<Request>, fileName: string, lines: seq<string>)
    returns (r: seq<Request>)
    ensures r == requests + LineRequests(fileName, |lines|)
  {
    r := requests;
    var index := 0;
    while index < |lines|
      invariant 0 <= index <= |lines|
      invariant r == requests + LineRequests(fileName, index)
    {
      r := r + [SetBreakpoint(fileName, index)];
      index := index + 1;
    }
  }

  /** `setBreakpoints` building `breakpointRequests` (runner.js:33-56): the
      filter, then for every target its real path, its text and one request
      per line, pushed in order. A target that does not resolve aborts the
      whole plan. */
  method BreakpointRequests(argv: seq<string>, realpath: map<string, string>, contents: map<string, string>)
    returns (r: Result<seq<Request>, string>)
    ensures r == Plan(argv, realpath, contents)
  {
    var targets := Targets(argv);
    ghost var files: seq<SourceFile> := [];
    var requests: seq<Request> := [];
    var k := 0;
    while k < |targets|
      invariant 0 <= k <= |targets|
      invariant Resolve(targets[..k], realpath, contents) == Ok(files)
      invariant requests == Requests(files)
    {
      var f := targets[k];
      if !Readable(f, realpath, contents) {
        ResolveFails(targets, realpath, contents, k);
        return Err(f);
      }
      var fileName := realpath[f];
      var lines := Split(contents[fileName], '\n');
      requests := PushLineRequests(requests, fileName, lines);
      ghost var file := SourceFile(fileName, lines);
      ResolveStep(targets, realpath, contents, k, files);
      RequestsAppend(files, file);
      files := files + [file];
      k := k + 1;
    }
    assert targets[..k] == targets;
    return Ok(requests);
  }

  /** Resolving one more target that resolves appends its file. */
  lemma ResolveStep(targets: seq<string>, realpath: map<string, string>, contents: map<string, string>,
                    k: nat, files: seq<SourceFile>)
    requires k < |targets| && Resolve(targets[..k], realpath, contents) == Ok(files)
    requires Readable(targets[k], realpath, contents)
    ensures Resolve(targets[..k + 1], realpath, contents) == Ok(files + [Resolved(targets[k], realpath, contents)])
  {
    var file := Resolved(targets[k], realpath, contents);
    var pre := targets[..k + 1];
    ResolveOutcome(targets[..k], realpath, contents);
    ResolveOutcome(pre, realpath, contents);
    assert forall i :: 0 <= i < k ==> targets[..k][i] == pre[i];
    assert forall i :: 0 <= i < k + 1 ==> Readable(pre[i], realpath, contents);
    var next := Resolve(pre, realpath, contents);
    assert |files| == k && |next.value| == k + 1;
    assert forall i :: 0 <= i < k + 1 ==> next.value[i] == (files + [file])[i];
    assert next.value == files + [file];
  }

  /** A target that does not resolve, after `k` that did, makes the whole
      resolution fail with its name. */
  lemma {:induction false} ResolveFails(targets: seq<string>, realpath: map<string, string>, contents: map<string, string>, k: nat)
    requires k < |targets| && Resolve(targets[..k], realpath, contents).Ok?
    requires !Readable(targets[k], realpath, contents)
    ensures Resolve(targets, realpath, contents) == Err(targets[k])
  {
    if k > 0 {
      assert targets[..k][1..] == targets[1..][..k - 1];
      assert targets[..k][0] == targets[0];
      ResolveFails(targets[1..], realpath, contents, k - 1);
    }
  }

  /** Planning one more file appends its requests. */
  lemma {:induction false} RequestsAppend(files: seq<SourceFile>, file: SourceFile)
    ensures Requests(files + [file]) == Requests(files) + FileRequests(file)
  {
    if files == [] {
      assert [file][1..] == [];
    } else {
      assert (files + [file])[1..] == files[1..] + [file];
      RequestsAppend(files[1..], file);
    }
  }
}
