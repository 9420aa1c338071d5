/** The parameter-sweep driver: for every benchmark it enumerates the
  * Cartesian product of the argument value lists, builds one command line
  * per combination and turns it into the argument vector of a subprocess. */
module Sweep {

  /** One entry of a benchmark's argument dictionary, in the dictionary's order.
    * Values are kept as the text `format` prints for them. */
  datatype Argument = Argument(name: string, values: seq<string>)
  datatype Benchmark = Benchmark(name: string, command: string, arguments: seq<Argument>)
  /** The tuple handed to `run`: values, names, base command, model name, slurm flag. */
  datatype Task = Task(argtuple: seq<string>, argnames: seq<string>, basecommand: string,
                       name: string, useslurm: bool)

  // ---------------------------------------------------------------------
  // str.split(" ") and its inverse
  // ---------------------------------------------------------------------

  /** Python's `s.split(" ")`: cut at every single space; consecutive, leading
    * and trailing spaces give empty pieces, and the empty string gives [""]. */
  function Split(s: string): (r: seq<string>)
    ensures |r| >= 1
  {
    if |s| == 0 then [""]
    else
      var rest := Split(s[1..]);
      if s[0] == ' ' then [""] + rest else [[s[0]] + rest[0]] + rest[1..]
  }

  /** `" ".join(parts)`. */
  function Join(parts: seq<string>): string
    requires |parts| >= 1
  {
    if |parts| == 1 then parts[0] else parts[0] + " " + Join(parts[1..])
  }

  /** Every piece followed by one space: what the `argstr` loop accumulates. */
  function JoinTail(parts: seq<string>): string
  {
    if |parts| == 0 then "" else parts[0] + " " + JoinTail(parts[1..])
  }

  predicate NoSpace(s: string)
  {
    ' ' !in s
  }

  function Spaces(s: string): nat
  {
    if |s| == 0 then 0 else (if s[0] == ' ' then 1 else 0) + Spaces(s[1..])
  }

  /** Splitting never leaves a space inside a piece. */
  lemma {:induction false} SplitNoSpace(s: string)
    ensures forall i :: 0 <= i < |Split(s)| ==> NoSpace(Split(s)[i])
  {
    if |s| > 0 {
      SplitNoSpace(s[1..]);
    }
  }

  /** There is one piece more than there are spaces. */
  lemma {:induction false} SplitCount(s: string)
    ensures |Split(s)| == Spaces(s) + 1
  {
    if |s| > 0 {
      SplitCount(s[1..]);
    }
  }

  /** Joining the pieces with single spaces gives the string back. */
  lemma {:induction false} JoinSplit(s: string)
    ensures Join(Split(s)) == s
  {
    if |s| > 0 {
      var rest := Split(s[1..]);
      JoinSplit(s[1..]);
      if s[0] != ' ' {
        var r := Split(s);
        assert r == [[s[0]] + rest[0]] + rest[1..];
        if |rest| == 1 {
          assert Join(r) == [s[0]] + rest[0];
        } else {
          assert r[1..] == rest[1..];
          assert Join(r) == [s[0]] + rest[0] + " " + Join(rest[1..]);
        }
      }
    }
  }

  /** Splitting a join of space-free pieces gives the pieces back. */
  lemma {:induction false} SplitJoin(parts: seq<string>)
    requires |parts| >= 1
    requires forall i :: 0 <= i < |parts| ==> NoSpace(parts[i])
    ensures Split(Join(parts)) == parts
  {
    if |parts| == 1 {
      SplitPiece(parts[0]);
    } else {
      var tail := parts[1..];
      SplitJoin(tail);
      SplitBefore(parts[0], Join(tail));
    }
  }

  lemma {:induction false} SplitPiece(p: string)
    requires NoSpace(p)
    ensures Split(p) == [p]
  {
    if |p| > 0 {
      SplitPiece(p[1..]);
      assert [p[0]] + p[1..] == p;
    }
  }

  /** A space-free piece followed by a space and a remainder splits into that
    * piece and the remainder's pieces. */
  lemma {:induction false} SplitBefore(p: string, rest: string)
    requires NoSpace(p)
    ensures Split(p + " " + rest) == [p] + Split(rest)
  {
    var s := p + " " + rest;
    if |p| == 0 {
      assert s == " " + rest && s[1..] == rest;
    } else {
      assert s[1..] == p[1..] + " " + rest;
      SplitBefore(p[1..], rest);
      assert [p[0]] + p[1..] == p;
    }
  }

  /** Splitting at a space between two strings splits each of them. */
  lemma SplitAppend(a: string, b: string)
    ensures Split(a + " " + b) == Split(a) + Split(b)
  {
    var pa, pb := Split(a), Split(b);
    SplitNoSpace(a);
    SplitNoSpace(b);
    JoinSplit(a);
    JoinSplit(b);
    JoinAppend(pa, pb);
    SplitJoin(pa + pb);
  }

  lemma {:induction false} JoinAppend(x: seq<string>, y: seq<string>)
    requires |x| >= 1 && |y| >= 1
    ensures Join(x + y) == Join(x) + " " + Join(y)
  {
    if |x| == 1 {
      assert (x + y)[1..] == y;
    } else {
      assert (x + y)[1..] == x[1..] + y;
      JoinAppend(x[1..], y);
    }
  }

  lemma {:induction false} JoinTailAppend(x: seq<string>, y: seq<string>)
    ensures JoinTail(x + y) == JoinTail(x) + JoinTail(y)
  {
    if |x| > 0 {
      assert (x + y)[0] == x[0] && (x + y)[1..] == x[1..] + y;
      JoinTailAppend(x[1..], y);
      calc {
        JoinTail(x + y);
        x[0] + " " + JoinTail(x[1..] + y);
        x[0] + " " + (JoinTail(x[1..]) + JoinTail(y));
        (x[0] + " " + JoinTail(x[1..])) + JoinTail(y);
      }
    } else {
      assert x + y == y;
    }
  }

  lemma {:induction false} JoinTailLast(x: seq<string>, last: string)
    ensures Join(x + [last]) == JoinTail(x) + last
  {
    if |x| > 0 {
      assert (x + [last])[1..] == x[1..] + [last];
      JoinTailLast(x[1..], last);
    }
  }

  // ---------------------------------------------------------------------
  // run: the command line and the argument vector
  // ---------------------------------------------------------------------

  /** The names and values `zip` pairs up, flattened: name, value, name, value, ...
    * for the first `n` pairs. */
  function Tokens(names: seq<string>, values: seq<string>, n: nat): (r: seq<string>)
    requires n <= |names| && n <= |values|
    ensures |r| == 2 * n
  {
    if n == 0 then [] else Tokens(names, values, n - 1) + [names[n - 1], values[n - 1]]
  }

  /** The number of pairs `zip` produces: it stops at the shorter sequence. */
  function ZipLength(names: seq<string>, values: seq<string>): (n: nat)
    ensures n <= |names| && n <= |values| && (n == |names| || n == |values|)
  {
    if |names| <= |values| then |names| else |values|
  }

  /** The command `run` builds: the base command, a space, each zipped
    * "name value " in order, then "--name" and the model name. */
  function Command(basecommand: string, names: seq<string>, values: seq<string>, name: string): string
  {
    basecommand + " " + JoinTail(Tokens(names, values, ZipLength(names, values))) + "--name " + name
  }

  /** The argument vector handed to the subprocess. */
  function Argv(command: string, useslurm: bool): seq<string>
  {
    (if useslurm then ["srun", "-p", "jenkins", "python"] else ["python"]) + Split(command)
  }

  /** `run`: the `argstr` loop over the zipped pairs, then the argument vector
    * of the subprocess call (which is itself not modelled). */
  method Run(task: Task) returns (argv: seq<string>)
    ensures argv == Argv(Command(task.basecommand, task.argnames, task.argtuple, task.name), task.useslurm)
  {
    var names, values := task.argnames, task.argtuple;
    var n := ZipLength(names, values);
    var argstr := " ";
    var i := 0;
    while i < n
      invariant i <= n
      invariant argstr == " " + JoinTail(Tokens(names, values, i))
    {
      var pair := [names[i], values[i]];
      JoinTailAppend(Tokens(names, values, i), pair);
      assert pair[1..] == [values[i]] && [values[i]][1..] == [];
      assert JoinTail(pair) == names[i] + " " + values[i] + " ";
      argstr := argstr + names[i] + " " + values[i] + " ";
      i := i + 1;
    }
    assert i == n;
    var command := task.basecommand + argstr + "--name " + task.name;
    assert command == Command(task.basecommand, names, values, task.name);
    if task.useslurm {
      argv := ["srun", "-p", "jenkins", "python"] + Split(command);
    } else {
      argv := ["python"] + Split(command);
    }
  }

  /** The command is the base command and the tokens, joined by single spaces. */
  lemma CommandJoin(basecommand: string, names: seq<string>, values: seq<string>, name: string)
    ensures Command(basecommand, names, values, name)
         == basecommand + " " + Join(Tokens(names, values, ZipLength(names, values)) + ["--name", name])
  {
    var t := Tokens(names, values, ZipLength(names, values));
    JoinTailLast(t + ["--name"], name);
    JoinTailAppend(t, ["--name"]);
    assert t + ["--name", name] == (t + ["--name"]) + [name];
  }

  /** When no name, value or model name holds a space, the subprocess sees the
    * base command's words, then every zipped name and value as a word of its
    * own, in order, then "--name" and the model name. */
  lemma CommandTokens(basecommand: string, names: seq<string>, values: seq<string>, name: string)
    requires forall i :: 0 <= i < |names| ==> NoSpace(names[i])
    requires forall i :: 0 <= i < |values| ==> NoSpace(values[i])
    requires NoSpace(name)
    ensures Split(Command(basecommand, names, values, name))
         == Split(basecommand) + Tokens(names, values, ZipLength(names, values)) + ["--name", name]
  {
    var n := ZipLength(names, values);
    var t := Tokens(names, values, n);
    var parts := t + ["--name", name];
    CommandJoin(basecommand, names, values, name);
    TokensNoSpace(names, values, n);
    assert forall i :: 0 <= i < |parts| ==> NoSpace(parts[i]) by {
      forall i | 0 <= i < |parts|
        ensures NoSpace(parts[i])
      {
        if i < |t| {
          assert parts[i] == t[i];
        }
      }
    }
    SplitJoin(parts);
    SplitAppend(basecommand, Join(parts));
  }

  /** The tokens are the zipped names and values, alternating. */
  lemma {:induction false} TokensAt(names: seq<string>, values: seq<string>, n: nat, i: nat)
    requires n <= |names| && n <= |values| && i < n
    ensures Tokens(names, values, n)[2 * i] == names[i]
    ensures Tokens(names, values, n)[2 * i + 1] == values[i]
  {
    if i < n - 1 {
      TokensAt(names, values, n - 1, i);
    }
  }

  lemma {:induction false} TokensNoSpace(names: seq<string>, values: seq<string>, n: nat)
    requires n <= |names| && n <= |values|
    requires forall i :: 0 <= i < |names| ==> NoSpace(names[i])
    requires forall i :: 0 <= i < |values| ==> NoSpace(values[i])
    ensures forall i :: 0 <= i < 2 * n ==> NoSpace(Tokens(names, values, n)[i])
  {
    if n > 0 {
      TokensNoSpace(names, values, n - 1);
    }
  }

  // ---------------------------------------------------------------------
  // itertools.product
  // ---------------------------------------------------------------------

  /** `[x] + t` for every t, in order. */
  function Cons(x: string, tails: seq<seq<string>>): (r: seq<seq<string>>)
    ensures |r| == |tails|
  {
    seq(|tails|, j requires 0 <= j < |tails| => [x] + tails[j])
  }

  /** One block per first value, in the order of the first list. */
  function Prefixed(firsts: seq<string>, tails: seq<seq<string>>): seq<seq<string>>
  {
    if |firsts| == 0 then [] else Cons(firsts[0], tails) + Prefixed(firsts[1..], tails)
  }

  /** `itertools.product(*lists)`: the first list varies slowest, the last fastest. */
  function Product(lists: seq<seq<string>>): seq<seq<string>>
  {
    if |lists| == 0 then [[]] else Prefixed(lists[0], Product(lists[1..]))
  }

  function LengthProduct(lists: seq<seq<string>>): nat
  {
    if |lists| == 0 then 1 else |lists[0]| * LengthProduct(lists[1..])
  }

  lemma {:induction false} PrefixedLength(firsts: seq<string>, tails: seq<seq<string>>)
    ensures |Prefixed(firsts, tails)| == |firsts| * |tails|
  {
    if |firsts| > 0 {
      PrefixedLength(firsts[1..], tails);
      assert |firsts| * |tails| == |tails| + (|firsts| - 1) * |tails|;
    }
  }

  /** The product has as many tuples as the product of the list lengths. */
  lemma {:induction false} ProductLength(lists: seq<seq<string>>)
    ensures |Product(lists)| == LengthProduct(lists)
  {
    if |lists| > 0 {
      ProductLength(lists[1..]);
      PrefixedLength(lists[0], Product(lists[1..]));
    }
  }

  /** No tuple at all exactly when some argument has no values. */
  lemma {:induction false} ProductEmpty(lists: seq<seq<string>>)
    ensures |Product(lists)| == 0 <==> exists i :: 0 <= i < |lists| && |lists[i]| == 0
  {
    ProductLength(lists);
    if |lists| > 0 {
      ProductEmpty(lists[1..]);
      ProductLength(lists[1..]);
      if exists i :: 0 <= i < |lists[1..]| && |lists[1..][i]| == 0 {
        var i :| 0 <= i < |lists[1..]| && |lists[1..][i]| == 0;
        assert |lists[i + 1]| == 0;
      }
      if exists i :: 0 <= i < |lists| && |lists[i]| == 0 {
        var i :| 0 <= i < |lists| && |lists[i]| == 0;
        if i > 0 {
          assert |lists[1..][i - 1]| == 0;
        }
      }
    }
  }

  lemma {:induction false} PrefixedMember(firsts: seq<string>, tails: seq<seq<string>>, t: seq<string>)
    ensures t in Prefixed(firsts, tails) <==> |t| >= 1 && t[0] in firsts && t[1..] in tails
  {
    if |firsts| > 0 {
      PrefixedMember(firsts[1..], tails, t);
      if t in Cons(firsts[0], tails) {
        var j :| 0 <= j < |tails| && Cons(firsts[0], tails)[j] == t;
        assert t[1..] == tails[j];
      }
      if |t| >= 1 && t[0] == firsts[0] && t[1..] in tails {
        var j :| 0 <= j < |tails| && tails[j] == t[1..];
        assert Cons(firsts[0], tails)[j] == t;
      }
    }
  }

  /** A tuple is produced iff it picks, for every argument, one of its values. */
  lemma {:induction false} ProductMember(lists: seq<seq<string>>, t: seq<string>)
    ensures t in Product(lists) <==> |t| == |lists| && forall i :: 0 <= i < |t| ==> t[i] in lists[i]
  {
    if |lists| == 0 {
    } else {
      PrefixedMember(lists[0], Product(lists[1..]), t);
      if |t| >= 1 {
        ProductMember(lists[1..], t[1..]);
        if |t| == |lists| && forall i :: 0 <= i < |t| ==> t[i] in lists[i] {
          assert forall i :: 0 <= i < |t[1..]| ==> t[1..][i] in lists[1..][i] by {
            forall i | 0 <= i < |t[1..]|
              ensures t[1..][i] in lists[1..][i]
            {
              assert t[i + 1] in lists[i + 1];
            }
          }
        }
        if t in Product(lists) {
          forall i | 0 <= i < |t|
            ensures t[i] in lists[i]
          {
            if i > 0 {
              assert t[1..][i - 1] in lists[1..][i - 1];
            }
          }
        }
      }
    }
  }

  lemma {:induction false} PrefixedAt(firsts: seq<string>, tails: seq<seq<string>>, i: nat, j: nat)
    requires i < |firsts| && j < |tails|
    ensures i * |tails| + j < |Prefixed(firsts, tails)|
    ensures Prefixed(firsts, tails)[i * |tails| + j] == [firsts[i]] + tails[j]
  {
    PrefixedLength(firsts, tails);
    var c := Cons(firsts[0], tails);
    var rest := firsts[1..];
    assert Prefixed(firsts, tails) == c + Prefixed(rest, tails);
    if i == 0 {
      assert Prefixed(firsts, tails)[j] == c[j];
    } else {
      var prev := i - 1;
      var k := prev * |tails| + j;
      PrefixedAt(rest, tails, prev, j);
      BlockStart(i, prev, |tails|);
      assert i * |tails| + j == |c| + k;
      assert rest[prev] == firsts[i];
      assert Prefixed(firsts, tails)[|c| + k] == Prefixed(rest, tails)[k];
    }
  }

  /** Block `i` starts one block after block `i - 1`. */
  lemma BlockStart(i: nat, prev: nat, n: nat)
    requires i == prev + 1
    ensures i * n == prev * n + n
  {
  }

  /** Enumeration order: the tuples come in blocks, one per value of the first
    * argument in its list order, each block running through the product of
    * the remaining arguments; so the last argument varies fastest. */
  lemma ProductOrder(lists: seq<seq<string>>, i: nat, j: nat)
    requires |lists| >= 1 && i < |lists[0]| && j < |Product(lists[1..])|
    ensures i * |Product(lists[1..])| + j < |Product(lists)|
    ensures Product(lists)[i * |Product(lists[1..])| + j] == [lists[0][i]] + Product(lists[1..])[j]
  {
    PrefixedAt(lists[0], Product(lists[1..]), i, j);
  }

  // ---------------------------------------------------------------------
  // The sweep
  // ---------------------------------------------------------------------

  function Names(arguments: seq<Argument>): (r: seq<string>)
    ensures |r| == |arguments|
  {
    seq(|arguments|, i requires 0 <= i < |arguments| => arguments[i].name)
  }

  function ValueLists(arguments: seq<Argument>): (r: seq<seq<string>>)
    ensures |r| == |arguments|
  {
    seq(|arguments|, i requires 0 <= i < |arguments| => arguments[i].values)
  }

  /** The argument vectors of one benchmark, one per tuple of the product. */
  function Jobs(b: Benchmark, useslurm: bool): seq<seq<string>>
  {
    var tuples := Product(ValueLists(b.arguments));
    seq(|tuples|, i requires 0 <= i < |tuples| =>
      Argv(Command(b.command, Names(b.arguments), tuples[i], b.name), useslurm))
  }

  /** All argument vectors of the sweep, benchmark by benchmark. */
  function Plan(benchmarks: seq<Benchmark>, useslurm: bool): seq<seq<string>>
  {
    if |benchmarks| == 0 then []
    else Plan(benchmarks[..|benchmarks| - 1], useslurm) + Jobs(benchmarks[|benchmarks| - 1], useslurm)
  }

  function TaskArgv(t: Task): seq<string>
  {
    Argv(Command(t.basecommand, t.argnames, t.argtuple, t.name), t.useslurm)
  }

  /** The loop over the argument dictionary: names and value lists, in dictionary order. */
  method Columns(arguments: seq<Argument>) returns (argnames: seq<string>, argvalues: seq<seq<string>>)
    ensures argnames == Names(arguments) && argvalues == ValueLists(arguments)
  {
    argnames, argvalues := [], [];
    for i := 0 to |arguments|
      invariant argnames == Names(arguments[..i]) && argvalues == ValueLists(arguments[..i])
    {
      argnames := argnames + [arguments[i].name];
      argvalues := argvalues + [arguments[i].values];
    }
    assert arguments[..|arguments|] == arguments;
  }

  /** Every argument name is paired with its own values: the names and the
    * value lists have the same length, so `zip` drops nothing. */
  lemma ColumnsAligned(arguments: seq<Argument>, t: seq<string>)
    requires t in Product(ValueLists(arguments))
    ensures ZipLength(Names(arguments), t) == |arguments|
    ensures forall i :: 0 <= i < |arguments| ==> t[i] in arguments[i].values
  {
    ProductMember(ValueLists(arguments), t);
  }

  /** The sweep, in either mode: run each tuple in turn, or collect all tasks
    * and hand them to the pool. Returns the argument vectors listed in task
    * order (the order the sequential mode runs them and the pool mode
    * collects them); the list is the same in both modes. When the pool's
    * workers start each one is not modelled. */
  method SweepAll(benchmarks: seq<Benchmark>, useslurm: bool, multiprocessing: bool)
    returns (jobs: seq<seq<string>>)
    ensures jobs == Plan(benchmarks, useslurm)
  {
    var argtuples: seq<Task> := [];
    jobs := [];
    for b := 0 to |benchmarks|
      invariant multiprocessing ==> jobs == [] && TaskArgvs(argtuples) == Plan(benchmarks[..b], useslurm)
      invariant !multiprocessing ==> jobs == Plan(benchmarks[..b], useslurm)
    {
      var item := benchmarks[b];
      assert benchmarks[..b + 1][..b] == benchmarks[..b];
      var argnames, argvalues := Columns(item.arguments);
      var tuples := Product(argvalues);
      if multiprocessing {
        var batch := seq(|tuples|, i requires 0 <= i < |tuples| =>
          Task(tuples[i], argnames, item.command, item.name, useslurm));
        TaskArgvsAppend(argtuples, batch);
        assert TaskArgvs(batch) == Jobs(item, useslurm);
        argtuples := argtuples + batch;
      } else {
        var ran := RunEach(item, argnames, tuples, useslurm);
        jobs := jobs + ran;
      }
    }
    assert benchmarks[..|benchmarks|] == benchmarks;
    if multiprocessing {
      jobs := PoolMap(argtuples);
    }
  }

  /** The sequential branch for one benchmark: `run` on every tuple, in order. */
  method RunEach(item: Benchmark, argnames: seq<string>, tuples: seq<seq<string>>, useslurm: bool)
    returns (jobs: seq<seq<string>>)
    requires argnames == Names(item.arguments) && tuples == Product(ValueLists(item.arguments))
    ensures jobs == Jobs(item, useslurm)
  {
    jobs := [];
    for i := 0 to |tuples|
      invariant jobs == Jobs(item, useslurm)[..i]
    {
      var argv := Run(Task(tuples[i], argnames, item.command, item.name, useslurm));
      assert Jobs(item, useslurm)[..i + 1] == Jobs(item, useslurm)[..i] + [argv];
      jobs := jobs + [argv];
    }
    assert Jobs(item, useslurm)[..|tuples|] == Jobs(item, useslurm);
  }

  /** `pool.map(run, argtuples)`: `run` is applied once to every task; the
    * argument vectors are listed by task position, whatever order the
    * workers start them in. */
  method PoolMap(argtuples: seq<Task>) returns (jobs: seq<seq<string>>)
    ensures jobs == TaskArgvs(argtuples)
  {
    jobs := [];
    for i := 0 to |argtuples|
      invariant jobs == TaskArgvs(argtuples)[..i]
    {
      var argv := Run(argtuples[i]);
      jobs := jobs + [argv];
    }
    assert TaskArgvs(argtuples)[..|argtuples|] == TaskArgvs(argtuples);
  }

  function TaskArgvs(tasks: seq<Task>): (r: seq<seq<string>>)
    ensures |r| == |tasks|
  {
    seq(|tasks|, i requires 0 <= i < |tasks| => TaskArgv(tasks[i]))
  }

  lemma TaskArgvsAppend(x: seq<Task>, y: seq<Task>)
    ensures TaskArgvs(x + y) == TaskArgvs(x) + TaskArgvs(y)
  {
  }

  /** The sweep issues, per benchmark, one job per element of the product of
    * its value lists. */
  lemma {:induction false} PlanLength(benchmarks: seq<Benchmark>, useslurm: bool)
    ensures |Plan(benchmarks, useslurm)| == JobCount(benchmarks)
  {
    if |benchmarks| > 0 {
      PlanLength(benchmarks[..|benchmarks| - 1], useslurm);
      ProductLength(ValueLists(benchmarks[|benchmarks| - 1].arguments));
    }
  }

  function JobCount(benchmarks: seq<Benchmark>): nat
  {
    if |benchmarks| == 0 then 0
    else JobCount(benchmarks[..|benchmarks| - 1]) + LengthProduct(ValueLists(benchmarks[|benchmarks| - 1].arguments))
  }
}
