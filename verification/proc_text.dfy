/** The readers of /proc: thread counting for RLIMIT_NPROC, CPU time and peak memory. */
module ProcText {
  import opened Wrappers
  import opened Text

  // ---------------------------------------------------------------------------
  // Fields of a status file
  // ---------------------------------------------------------------------------

  /** `lines.find(|l| l.starts_with(prefix))`. */
  function FirstWith(lines: seq<string>, prefix: string): (r: Option<string>)
    ensures r.Some? ==> r.value in lines && StartsWith(r.value, prefix)
    ensures r.None? ==> forall l :: l in lines ==> !StartsWith(l, prefix)
  {
    if lines == [] then None
    else if StartsWith(lines[0], prefix) then Some(lines[0])
    else FirstWith(lines[1..], prefix)
  }

  /** `line.split_whitespace().nth(1)`. */
  function SecondWord(line: string): Option<string> {
    if |Words(line)| > 1 then Some(Words(line)[1]) else None
  }

  lemma {:induction false} FirstWithSkips(before: seq<string>, line: string, after: seq<string>, prefix: string)
    requires forall l :: l in before ==> !StartsWith(l, prefix)
    requires StartsWith(line, prefix)
    ensures FirstWith(before + [line] + after, prefix) == Some(line)
    decreases |before|
  {
    if before != [] {
      FirstWithSkips(before[1..], line, after, prefix);
      assert (before + [line] + after)[1..] == before[1..] + [line] + after;
      assert before[0] in before;
    }
  }

  // ---------------------------------------------------------------------------
  // Counting the threads of a user
  // ---------------------------------------------------------------------------

  /** An entry of /proc, and what reading its status file gives. */
  datatype Entry = Entry(name: string, status: Option<string>)

  predicate UidMatches(content: string, uid: nat) {
    match FirstWith(Lines(content), "Uid:")
    case None => false
    case Some(line) =>
      var parsed := match SecondWord(line)
        case None => None
        case Some(word) => ParseUnsigned(word, U32_MAX);
      (if parsed.Some? then parsed.value else U32_MAX) == uid
  }

  function ThreadsField(content: string): (r: Option<nat>)
    ensures r.Some? ==> r.value <= U64_MAX
  {
    match FirstWith(Lines(content), "Threads:")
    case None => None
    case Some(line) =>
      match SecondWord(line)
      case None => None
      case Some(word) => ParseUnsigned(word, U64_MAX)
  }

  /** What one entry adds to the count. */
  function Contribution(entry: Entry, uid: nat): (n: nat)
    ensures n <= U64_MAX
  {
    if ParseUnsigned(entry.name, U32_MAX).None? || entry.status.None? then 0
    else if UidMatches(entry.status.value, uid) && ThreadsField(entry.status.value).Some? then
      ThreadsField(entry.status.value).value
    else 0
  }

  function TotalThreads(dir: seq<Entry>, uid: nat): nat {
    Sum(dir, (entry: Entry) => Contribution(entry, uid))
  }

  /** u64 addition: in a build with overflow checks a sum that does not fit is a panic, else it wraps. */
  function Add(a: nat, b: nat, overflowChecks: bool): (c: Option<nat>)
    requires a <= U64_MAX && b <= U64_MAX
    ensures c.Some? ==> c.value <= U64_MAX
  {
    if a + b <= U64_MAX then Some(a + b)
    else if overflowChecks then None
    else Some(a + b - U64_SIZE)
  }

  method ThreadsOf(entry: Entry, uid: nat) returns (n: nat)
    ensures n == Contribution(entry, uid)
  {
    n := 0;
    if ParseUnsigned(entry.name, U32_MAX).None? {
      return;
    }
    if entry.status.Some? && UidMatches(entry.status.value, uid) {
      var threads := ThreadsField(entry.status.value);
      if threads.Some? {
        n := threads.value;
      }
    }
  }

  lemma {:induction false} SumGrows<T>(xs: seq<T>, i: nat, f: T -> nat)
    requires i <= |xs|
    ensures Sum(xs[..i], f) <= Sum(xs, f)
    decreases |xs|
  {
    if i == |xs| {
      assert xs[..i] == xs;
    } else {
      SumGrows(xs[..|xs| - 1], i, f);
      assert xs[..|xs| - 1][..i] == xs[..i];
    }
  }

  lemma WrapsAreLost(total: nat, sum: nat, wraps: nat)
    requires sum <= U64_MAX && total == sum + wraps * U64_SIZE
    ensures total % U64_SIZE == sum && (total <= U64_MAX <==> wraps == 0)
  {
  }

  /**
   The counter is a u64.  A total that fits is counted exactly; one that does not is a panic, None,
   where overflow is checked, and else what is left of it after whole wraps.
   */
  method CountThreadsForUid(dir: seq<Entry>, uid: nat, overflowChecks: bool) returns (count: Option<nat>)
    requires uid <= U32_MAX
    ensures count == if TotalThreads(dir, uid) <= U64_MAX then Some(TotalThreads(dir, uid))
                     else if overflowChecks then None
                     else Some(TotalThreads(dir, uid) % U64_SIZE)
  {
    var sum: nat := 0;
    ghost var wraps: nat, f := 0, (entry: Entry) => Contribution(entry, uid);
    for i := 0 to |dir|
      invariant sum <= U64_MAX && Sum(dir[..i], f) == sum + wraps * U64_SIZE
      invariant wraps > 0 ==> !overflowChecks
    {
      assert dir[..i + 1][..i] == dir[..i];
      var n := ThreadsOf(dir[i], uid);
      var next := Add(sum, n, overflowChecks);
      if next.None? {
        SumGrows(dir, i + 1, f);
        return None;
      }
      if sum + n > U64_MAX {
        wraps := wraps + 1;
      }
      sum := next.value;
    }
    assert dir[..|dir|] == dir;
    WrapsAreLost(TotalThreads(dir, uid), sum, wraps);
    count := Some(sum);
  }

  function SaturatingAdd(a: nat, b: nat): nat {
    Min(a + b, U64_MAX)
  }

  /** Saturating twice is saturating once; None is the panic of the count. */
  method NprocLimitForUid(dir: seq<Entry>, uid: nat, maxProcesses: nat, overflowChecks: bool)
    returns (limit: Option<nat>)
    requires uid <= U32_MAX && maxProcesses <= U64_MAX
    ensures TotalThreads(dir, uid) <= U64_MAX ==>
              limit == Some(Min(TotalThreads(dir, uid) + maxProcesses + 64, U64_MAX))
    ensures TotalThreads(dir, uid) > U64_MAX ==>
              limit == if overflowChecks then None
                       else Some(Min(TotalThreads(dir, uid) % U64_SIZE + maxProcesses + 64, U64_MAX))
  {
    var count := CountThreadsForUid(dir, uid, overflowChecks);
    if count.None? {
      return None;
    }
    limit := Some(SaturatingAdd(SaturatingAdd(count.value, maxProcesses), 64));
  }

  // ---------------------------------------------------------------------------
  // A process table, and what the kernel writes for it
  // ---------------------------------------------------------------------------

  /** A process as its status file describes it; the other lines are arbitrary. */
  datatype Process = Process(
    pid: nat,
    uids: seq<nat>,  // real, effective, saved, file system
    threads: nat,
    before: seq<string>,
    between: seq<string>,
    after: seq<string>)

  predicate IsOtherLine(l: string) {
    IsLine(l) && !StartsWith(l, "Uid:") && !StartsWith(l, "Threads:")
  }

  ghost predicate WellFormed(p: Process) {
    && p.pid <= U32_MAX && p.threads <= U64_MAX
    && p.uids != [] && (forall u :: u in p.uids ==> u <= U32_MAX)
    && (forall l :: l in p.before + p.between + p.after ==> IsOtherLine(l))
  }

  function Decimals(ns: seq<nat>): (words: seq<string>)
    ensures |words| == |ns| && forall i :: 0 <= i < |ns| ==> words[i] == Decimal(ns[i])
  {
    seq(|ns|, i requires 0 <= i < |ns| => Decimal(ns[i]))
  }

  function UidLine(p: Process): string {
    "Uid:" + JoinAfter('\t', Decimals(p.uids))
  }

  function ThreadsLine(p: Process): string {
    "Threads:" + JoinAfter('\t', [Decimal(p.threads)])
  }

  function Status(p: Process): string {
    Unlines(p.before + [UidLine(p)] + p.between + [ThreadsLine(p)] + p.after)
  }

  /** What a directory entry of /proc stands for. */
  datatype Item =
    | Alive(process: Process)
    | Vanished(pid: nat)                             // gone before its status was read
    | NotAProcess(name: string, status: Option<string>)

  ghost predicate ItemWellFormed(item: Item) {
    match item
    case Alive(p) => WellFormed(p)
    case Vanished(_) => true
    case NotAProcess(name, _) => ParseUnsigned(name, U32_MAX).None?
  }

  function Render(item: Item): Entry {
    match item
    case Alive(p) => Entry(Decimal(p.pid), Some(Status(p)))
    case Vanished(pid) => Entry(Decimal(pid), None)
    case NotAProcess(name, status) => Entry(name, status)
  }

  /** The threads that `item` really contributes to the tasks of `uid`. */
  function Owned(item: Item, uid: nat): nat {
    if item.Alive? && item.process.uids != [] && item.process.uids[0] == uid then item.process.threads else 0
  }

  function OwnedThreads(items: seq<Item>, uid: nat): nat {
    Sum(items, (item: Item) => Owned(item, uid))
  }

  function RenderAll(items: seq<Item>): (dir: seq<Entry>)
    ensures |dir| == |items| && forall i :: 0 <= i < |items| ==> dir[i] == Render(items[i])
  {
    seq(|items|, i requires 0 <= i < |items| => Render(items[i]))
  }

  lemma DecimalIsWord(n: nat)
    ensures IsWord(Decimal(n)) && IsLine(Decimal(n))
  {
    forall c | c in Decimal(n) ensures IsDigit(c) && !IsWhitespace(c) && c != '\n' && c != '\r' {
    }
  }

  /** A tag without whitespace, then words each after a tab: the second word is the first of them. */
  lemma LabelledLine(tag: string, words: seq<string>)
    requires IsWord(tag) && words != []
    requires forall w :: w in words ==> IsWord(w)
    ensures SecondWord(tag + JoinAfter('\t', words)) == Some(words[0])
  {
    WordsOfJoin('\t', words, []);
    assert JoinAfter('\t', words) + [] == JoinAfter('\t', words);
    FirstWord(tag, JoinAfter('\t', words));
  }

  lemma {:induction false} JoinIsLine(words: seq<string>)
    requires forall w :: w in words ==> IsWord(w) && IsLine(w)
    ensures IsLine(JoinAfter('\t', words))
    decreases |words|
  {
    if words != [] {
      JoinIsLine(words[1..]);
      var rest := JoinAfter('\t', words[1..]);
      assert IsLine(words[0]) && words[0] != [];
      assert rest != [] ==> rest[|rest| - 1] == JoinAfter('\t', words)[|JoinAfter('\t', words)| - 1];
    }
  }

  lemma LabelledIsLine(tag: string, words: seq<string>)
    requires IsWord(tag) && IsLine(tag)
    requires forall w :: w in words ==> IsWord(w) && IsLine(w)
    ensures IsLine(tag + JoinAfter('\t', words))
  {
    JoinIsLine(words);
    var s := tag + JoinAfter('\t', words);
    assert JoinAfter('\t', words) != [] ==>
             s[|s| - 1] == JoinAfter('\t', words)[|JoinAfter('\t', words)| - 1];
  }

  lemma StatusLines(p: Process)
    requires WellFormed(p)
    ensures Lines(Status(p)) == p.before + [UidLine(p)] + p.between + [ThreadsLine(p)] + p.after
    ensures SecondWord(UidLine(p)) == Some(Decimal(p.uids[0]))
    ensures SecondWord(ThreadsLine(p)) == Some(Decimal(p.threads))
  {
    forall w | w in Decimals(p.uids) + [Decimal(p.threads)] ensures IsWord(w) && IsLine(w) {
      var n :| w == Decimal(n);
      DecimalIsWord(n);
    }
    LabelledLine("Uid:", Decimals(p.uids));
    LabelledLine("Threads:", [Decimal(p.threads)]);
    LabelledIsLine("Uid:", Decimals(p.uids));
    LabelledIsLine("Threads:", [Decimal(p.threads)]);
    var lines := p.before + [UidLine(p)] + p.between + [ThreadsLine(p)] + p.after;
    forall l | l in lines ensures IsLine(l) {
      assert l in p.before + p.between + p.after || l == UidLine(p) || l == ThreadsLine(p);
    }
    LinesOfUnlines(lines);
  }

  lemma UidIsRead(p: Process, uid: nat)
    requires WellFormed(p)
    ensures UidMatches(Status(p), uid) <==> p.uids[0] == uid
  {
    StatusLines(p);
    var rest := p.between + [ThreadsLine(p)] + p.after;
    assert Lines(Status(p)) == p.before + [UidLine(p)] + rest;
    forall l | l in p.before ensures !StartsWith(l, "Uid:") {
      assert l in p.before + p.between + p.after;
    }
    FirstWithSkips(p.before, UidLine(p), rest, "Uid:");
    assert p.uids[0] in p.uids;
    ParseDecimal(p.uids[0], U32_MAX);
  }

  lemma ThreadsAreRead(p: Process)
    requires WellFormed(p)
    ensures ThreadsField(Status(p)) == Some(p.threads)
  {
    StatusLines(p);
    var before := p.before + [UidLine(p)] + p.between;
    forall l | l in before ensures !StartsWith(l, "Threads:") {
      assert UidLine(p)[0] == 'U';
      assert l in p.before + p.between + p.after || l == UidLine(p);
    }
    FirstWithSkips(before, ThreadsLine(p), p.after, "Threads:");
    ParseDecimal(p.threads, U64_MAX);
  }

  /** A status that does not say whose it is, or how many threads it has, counts for nobody. */
  lemma UnlabelledCountsForNobody(name: string, lines: seq<string>, uid: nat)
    requires forall l :: l in lines ==> IsLine(l)
    requires (forall l :: l in lines ==> !StartsWith(l, "Uid:"))
             || (forall l :: l in lines ==> !StartsWith(l, "Threads:"))
    ensures Contribution(Entry(name, Some(Unlines(lines))), uid) == 0
  {
    LinesOfUnlines(lines);
  }

  /** A Uid line without a UID in it stands for the largest one. */
  lemma UnreadableUidIsLargest(before: seq<string>, word: string, after: seq<string>, uid: nat)
    requires IsWord(word) && IsLine(word) && ParseUnsigned(word, U32_MAX).None?
    requires forall l :: l in before ==> IsLine(l) && !StartsWith(l, "Uid:")
    requires forall l :: l in after ==> IsLine(l)
    ensures UidMatches(Unlines(before + ["Uid:" + JoinAfter('\t', [word])] + after), uid) <==> uid == U32_MAX
  {
    var line := "Uid:" + JoinAfter('\t', [word]);
    LabelledLine("Uid:", [word]);
    LabelledIsLine("Uid:", [word]);
    LinesOfUnlines(before + [line] + after);
    FirstWithSkips(before, line, after, "Uid:");
  }

  lemma RenderedContribution(item: Item, uid: nat)
    requires ItemWellFormed(item)
    ensures Contribution(Render(item), uid) == Owned(item, uid)
  {
    if item.Alive? {
      UidIsRead(item.process, uid);
      ThreadsAreRead(item.process);
      ParseDecimal(item.process.pid, U32_MAX);
    }
  }

  /** Reading the directory that the kernel writes for a table counts the table's own threads. */
  lemma {:induction false} CountIsTrue(items: seq<Item>, uid: nat)
    requires forall item :: item in items ==> ItemWellFormed(item)
    ensures TotalThreads(RenderAll(items), uid) == OwnedThreads(items, uid)
    decreases |items|
  {
    if items != [] {
      var n := |items| - 1;
      assert RenderAll(items)[..n] == RenderAll(items[..n]);
      CountIsTrue(items[..n], uid);
      RenderedContribution(items[n], uid);
    }
  }

  /** The order in which the directory is read does not matter. */
  lemma OrderDoesNotMatter(dir: seq<Entry>, other: seq<Entry>, uid: nat)
    requires multiset(dir) == multiset(other)
    ensures TotalThreads(dir, uid) == TotalThreads(other, uid)
  {
    SumOfPermutation(dir, other, (entry: Entry) => Contribution(entry, uid));
  }

  /** Both together: whatever order the kernel lists a process table in, the limit is exact. */
  method NprocLimitOfTable(ghost items: seq<Item>, dir: seq<Entry>, uid: nat, maxProcesses: nat, overflowChecks: bool)
    returns (limit: Option<nat>)
    requires forall item :: item in items ==> ItemWellFormed(item)
    requires multiset(dir) == multiset(RenderAll(items))
    requires uid <= U32_MAX && maxProcesses <= U64_MAX
    ensures OwnedThreads(items, uid) <= U64_MAX ==>
              limit == Some(Min(OwnedThreads(items, uid) + maxProcesses + 64, U64_MAX))
    ensures OwnedThreads(items, uid) > U64_MAX && overflowChecks ==> limit == None
  {
    CountIsTrue(items, uid);
    OrderDoesNotMatter(dir, RenderAll(items), uid);
    limit := NprocLimitForUid(dir, uid, maxProcesses, overflowChecks);
  }

  // ---------------------------------------------------------------------------
  // CPU time
  // ---------------------------------------------------------------------------

  /** `stat.split_once(") ")`, the second half. */
  function AfterClose(stat: string): Option<string> {
    match Find(stat, ") ")
    case None => None
    case Some(i) => Some(stat[i + 2..])
  }

  /** The two words that the stat parser takes for utime and stime. */
  function TimesRead(stat: string): Option<(string, string)> {
    match AfterClose(stat)
    case None => None
    case Some(rest) =>
      var parts := Words(rest);
      if |parts| < 15 then None else Some((parts[11], parts[12]))
  }

  /** `parse` is the floating-point parser, `ticks` what sysconf answers for the clock rate. */
  function CpuTimeSecs(stat: string, parse: string -> Option<real>, ticks: int): Option<real> {
    SumOfTimes(TimesRead(stat), parse, ticks)
  }

  function SumOfTimes(times: Option<(string, string)>, parse: string -> Option<real>, ticks: int): Option<real> {
    if times.None? then None
    else
      var utime, stime := parse(times.value.0), parse(times.value.1);
      if utime.None? || stime.None? || ticks <= 0 then None
      else Some((utime.value + stime.value) / (ticks as real))
  }

  /** A stat line: the PID, the command name in parentheses, then `fields`, which are 3 and up. */
  function StatLine(pid: nat, comm: string, fields: seq<string>): string {
    Decimal(pid) + " (" + (comm + (")" + FieldText(fields)))
  }

  ghost predicate AreFields(fields: seq<string>) {
    |fields| >= 15 && forall f :: f in fields ==> IsWord(f)
  }

  /** The fields as they follow the closing parenthesis. */
  function FieldText(fields: seq<string>): string {
    JoinAfter(' ', fields) + "\n"
  }

  lemma WordsOfFields(fields: seq<string>)
    requires AreFields(fields)
    ensures FieldText(fields)[0] == ' ' && Words(FieldText(fields)) == fields
  {
    WordsOfJoin(' ', fields, "\n");
    assert Words("\n") == [];
  }

  lemma {:induction false} FindSkips(prefix: string, s: string)
    requires ')' !in prefix
    ensures Find(prefix + s, ") ") ==
              (match Find(s, ") ") case None => None case Some(i) => Some(|prefix| + i))
    decreases |prefix|
  {
    if prefix == [] {
      assert prefix + s == s;
    } else {
      assert (prefix + s)[0] == prefix[0] != ')';
      assert (prefix + s)[1..] == prefix[1..] + s;
      FindSkips(prefix[1..], s);
    }
  }

  /** A command name that contains no ") " ends at the first one after it. */
  lemma {:induction false} CloseIsFound(comm: string, close: string)
    requires Find(comm, ") ").None? && ") " <= close
    ensures Find(comm + close, ") ") == Some(|comm|)
    decreases |comm|
  {
    var s := comm + close;
    if comm == [] {
      assert s == close;
    } else {
      assert s[1] == (if |comm| > 1 then comm[1] else ')');
      assert |comm| > 1 ==> comm[..2] == [comm[0], comm[1]];
      assert s[1..] == comm[1..] + close;
      CloseIsFound(comm[1..], close);
    }
  }

  lemma PidHasNoParenthesis(pid: nat)
    ensures ')' !in Decimal(pid) + " ("
  {
    assert !IsDigit(')');
  }

  lemma {:induction false} FindInPrefix(s: string, rest: string)
    requires Find(s, ") ").Some?
    ensures Find(s + rest, ") ") == Find(s, ") ")
    decreases |s|
  {
    assert |s| >= 2 && (s + rest)[..2] == s[..2];
    if !StartsWith(s, ") ") {
      assert (s + rest)[1..] == s[1..] + rest;
      FindInPrefix(s[1..], rest);
    }
  }

  lemma AfterCloseSkips(prefix: string, s: string)
    requires ')' !in prefix
    ensures AfterClose(prefix + s) == AfterClose(s)
  {
    FindSkips(prefix, s);
    if Find(s, ") ").Some? {
      DropPrefix(prefix, s, Find(s, ") ").value + 2);
    }
  }

  /** Where the parser splits a command name and what follows: after the name, or inside it. */
  lemma NameSplits(comm: string, close: string)
    requires ") " <= close
    ensures AfterClose(comm + close) ==
              Some(if Find(comm, ") ").None? then close[2..] else comm[Find(comm, ") ").value + 2..] + close)
  {
    if Find(comm, ") ").None? {
      CloseIsFound(comm, close);
      DropPrefix(comm, close, 2);
    } else {
      FindInPrefix(comm, close);
      DropInside(comm, close, Find(comm, ") ").value + 2);
    }
  }

  lemma StatSplits(pid: nat, comm: string, fields: seq<string>)
    ensures AfterClose(StatLine(pid, comm, fields)) == AfterClose(comm + (")" + FieldText(fields)))
  {
    PidHasNoParenthesis(pid);
    AfterCloseSkips(Decimal(pid) + " (", comm + (")" + FieldText(fields)));
  }

  lemma CloseStartsFields(fields: seq<string>)
    requires AreFields(fields)
    ensures ") " <= ")" + FieldText(fields)
  {
    WordsOfFields(fields);
    assert (")" + FieldText(fields))[..2] == ") ";
  }

  /** Where a line is split decides which words are read. */
  lemma TimesOfRest(stat: string, rest: string, parts: seq<string>)
    requires AfterClose(stat) == Some(rest) && Words(rest) == parts && |parts| >= 15
    ensures TimesRead(stat) == Some((parts[11], parts[12]))
  {
  }

  /** Fields 14 and 15 are read from every stat line whose command name contains no ") ". */
  lemma StatTimesAreRead(pid: nat, comm: string, fields: seq<string>)
    requires AreFields(fields) && Find(comm, ") ").None?
    ensures TimesRead(StatLine(pid, comm, fields)) == Some((fields[11], fields[12]))
  {
    var text := FieldText(fields);
    CloseStartsFields(fields);
    StatSplits(pid, comm, fields);
    NameSplits(comm, ")" + text);
    WordsOfFields(fields);
    WordsAfterClose(text);
    TimesOfRest(StatLine(pid, comm, fields), (")" + text)[2..], fields);
  }

  lemma WordsAfterClose(text: string)
    requires text != [] && text[0] == ' '
    ensures Words((")" + text)[2..]) == Words(text)
  {
    assert (")" + text)[2..] == text[1..];
    LeadingSpace(' ', text[1..]);
    assert [' '] + text[1..] == text;
  }

  /** One time that is no number is enough to have none. */
  lemma UnreadableTimesGiveNothing(pid: nat, comm: string, fields: seq<string>, parse: string -> Option<real>,
                                   ticks: int)
    requires AreFields(fields) && Find(comm, ") ").None?
    requires parse(fields[11]).None? || parse(fields[12]).None?
    ensures CpuTimeSecs(StatLine(pid, comm, fields), parse, ticks) == None
  {
    StatTimesAreRead(pid, comm, fields);
  }

  /** A line without ") ", or with fewer than fifteen fields after the name, gives no times. */
  lemma ShortStatGivesNothing(pid: nat, comm: string, fields: seq<string>)
    requires Find(comm, ") ").None? && 0 < |fields| < 15 && forall f :: f in fields ==> IsWord(f)
    ensures TimesRead(StatLine(pid, comm, fields)) == None
  {
    var text := FieldText(fields);
    WordsOfJoin(' ', fields, "\n");
    assert Words("\n") == [];
    StatSplits(pid, comm, fields);
    assert (")" + text)[..2] == ") ";
    NameSplits(comm, ")" + text);
    WordsAfterClose(text);
  }

  /** The CPU time of such a line is the sum of utime and stime over the clock rate. */
  lemma CpuTimeIsTrue(pid: nat, comm: string, fields: seq<string>, utime: nat, stime: nat,
                      parse: string -> Option<real>, ticks: int)
    requires AreFields(fields) && Find(comm, ") ").None?
    requires fields[11] == Decimal(utime) && fields[12] == Decimal(stime)
    requires parse(Decimal(utime)) == Some(utime as real) && parse(Decimal(stime)) == Some(stime as real)
    ensures CpuTimeSecs(StatLine(pid, comm, fields), parse, ticks) ==
              if ticks > 0 then Some((utime as real + stime as real) / (ticks as real)) else None
  {
    StatTimesAreRead(pid, comm, fields);
    TimesDecide(StatLine(pid, comm, fields), fields[11], fields[12], parse, ticks);
  }

  lemma TimesDecide(stat: string, utime: string, stime: string, parse: string -> Option<real>, ticks: int)
    requires TimesRead(stat) == Some((utime, stime)) && parse(utime).Some? && parse(stime).Some?
    ensures CpuTimeSecs(stat, parse, ticks) ==
              if ticks > 0 then Some((parse(utime).value + parse(stime).value) / (ticks as real)) else None
  {
  }

  /** The words of what is left of the name come first. */
  lemma WordsAfterNamePart(left: string, fields: seq<string>)
    requires AreFields(fields)
    ensures Words(left + (")" + FieldText(fields))) == Words(left + ")") + fields
  {
    WordsOfFields(fields);
    WordsAppend(left + ")", FieldText(fields));
    SnocAssociates(left, ")", FieldText(fields));
  }

  /**
   A command name that does contain ") " splits the line inside the name: the words after it come
   first, and every field is read that many places too early.
   */
  lemma StatTimesAreShifted(pid: nat, comm: string, fields: seq<string>)
    requires AreFields(fields) && Find(comm, ") ").Some?
    ensures var parts := Words(comm[Find(comm, ") ").value + 2..] + ")") + fields;
            TimesRead(StatLine(pid, comm, fields)) == Some((parts[11], parts[12]))
  {
    var left := comm[Find(comm, ") ").value + 2..];
    var close := ")" + FieldText(fields);
    CloseStartsFields(fields);
    StatSplits(pid, comm, fields);
    NameSplits(comm, close);
    WordsAfterNamePart(left, fields);
    TimesOfRest(StatLine(pid, comm, fields), left + close, Words(left + ")") + fields);
  }

  lemma LastWordIsThere(s: string)
    ensures Words(s + ")") != []
    decreases |s|
  {
    if s != [] && IsWhitespace(s[0]) {
      assert (s + ")")[1..] == s[1..] + ")";
      LastWordIsThere(s[1..]);
    }
  }

  /** Fields 14 and 15 are read for all fields exactly when the command name contains no ") ". */
  lemma StatTimesExactly(pid: nat, comm: string)
    ensures (forall fields: seq<string> :: AreFields(fields) ==>
               TimesRead(StatLine(pid, comm, fields)) == Some((fields[11], fields[12])))
            <==> Find(comm, ") ").None?
  {
    if Find(comm, ") ").None? {
      forall fields: seq<string> | AreFields(fields)
        ensures TimesRead(StatLine(pid, comm, fields)) == Some((fields[11], fields[12]))
      {
        StatTimesAreRead(pid, comm, fields);
      }
    } else {
      var extra := Words(comm[Find(comm, ") ").value + 2..] + ")");
      LastWordIsThere(comm[Find(comm, ") ").value + 2..]);
      var fields := Distinguishing(extra);
      StatTimesAreShifted(pid, comm, fields);
    }
  }

  /** Fields whose eleventh shows whether anything was put before them. */
  lemma Distinguishing(extra: seq<string>) returns (fields: seq<string>)
    requires extra != []
    ensures AreFields(fields) && (extra + fields)[11] != fields[11]
  {
    var other := if |extra| > 11 && extra[11] == "1" then "2" else "1";
    fields := seq(15, i => if i == 11 then other else "0");
    assert IsWord("0") && IsWord("1") && IsWord("2");
    assert fields[11] == other;
    assert |extra| <= 11 ==> (extra + fields)[11] == fields[11 - |extra|] == "0";
  }

  // ---------------------------------------------------------------------------
  // Peak memory
  // ---------------------------------------------------------------------------

  /** The first VmPeak line decides, in kilobytes; the product saturates. */
  function PeakMemoryBytes(status: string): Option<nat> {
    match FirstWith(Lines(status), "VmPeak:")
    case None => None
    case Some(line) =>
      match SecondWord(line)
      case None => None
      case Some(word) =>
        match ParseUnsigned(word, U64_MAX)
        case None => None
        case Some(kilobytes) => Some(Min(kilobytes * 1024, U64_MAX))
  }

  function VmPeakLine(padding: string, number: string): string {
    "VmPeak:" + (padding + (number + " kB"))
  }

  /** The peak that the kernel wrote comes back, however far the number is padded with blanks. */
  lemma PeakMemoryIsRead(before: seq<string>, padding: string, kilobytes: nat, after: seq<string>)
    requires kilobytes <= U64_MAX
    requires padding != [] && forall c :: c in padding ==> c == ' ' || c == '\t'
    requires forall l :: l in before ==> IsLine(l) && !StartsWith(l, "VmPeak:")
    requires forall l :: l in after ==> IsLine(l)
    ensures PeakMemoryBytes(Unlines(before + [VmPeakLine(padding, Decimal(kilobytes))] + after)) ==
              Some(Min(kilobytes * 1024, U64_MAX))
  {
    var line := VmPeakLine(padding, Decimal(kilobytes));
    DecimalIsWord(kilobytes);
    VmPeakIsLine(padding, Decimal(kilobytes));
    VmPeakSecondWord(padding, Decimal(kilobytes));
    LinesOfUnlines(before + [line] + after);
    FirstWithSkips(before, line, after, "VmPeak:");
    ParseDecimal(kilobytes, U64_MAX);
  }

  /** A status without a VmPeak line, which is what a zombie has, gives no peak. */
  lemma NoVmPeakLine(lines: seq<string>)
    requires forall l :: l in lines ==> IsLine(l) && !StartsWith(l, "VmPeak:")
    ensures PeakMemoryBytes(Unlines(lines)) == None
  {
    LinesOfUnlines(lines);
  }

  /** Nor does one whose first VmPeak line has something else than a u64. */
  lemma NoVmPeakNumber(before: seq<string>, padding: string, word: string, after: seq<string>)
    requires IsWord(word) && IsLine(word) && ParseUnsigned(word, U64_MAX).None?
    requires padding != [] && forall c :: c in padding ==> c == ' ' || c == '\t'
    requires forall l :: l in before ==> IsLine(l) && !StartsWith(l, "VmPeak:")
    requires forall l :: l in after ==> IsLine(l)
    ensures PeakMemoryBytes(Unlines(before + [VmPeakLine(padding, word)] + after)) == None
  {
    var line := VmPeakLine(padding, word);
    VmPeakIsLine(padding, word);
    VmPeakSecondWord(padding, word);
    LinesOfUnlines(before + [line] + after);
    FirstWithSkips(before, line, after, "VmPeak:");
  }

  lemma VmPeakIsLine(padding: string, number: string)
    requires IsLine(number) && '\n' !in padding
    ensures IsLine(VmPeakLine(padding, number))
  {
    var line := VmPeakLine(padding, number);
    assert line[|line| - 1] == 'B';
  }

  lemma VmPeakSecondWord(padding: string, number: string)
    requires IsWord(number)
    requires padding != [] && forall c :: c in padding ==> IsWhitespace(c)
    ensures SecondWord(VmPeakLine(padding, number)) == Some(number)
  {
    var text := number + " kB";
    SkipPadding(padding, text);
    NumberIsFirst(number);
    TagIsFirst(padding + text);
  }

  lemma NumberIsFirst(number: string)
    requires IsWord(number)
    ensures Words(number + " kB") != [] && Words(number + " kB")[0] == number
  {
    FirstWord(number, " kB");
  }

  lemma TagIsFirst(rest: string)
    requires rest != [] && IsWhitespace(rest[0])
    ensures Words("VmPeak:" + rest) == ["VmPeak:"] + Words(rest)
  {
    FirstWord("VmPeak:", rest);
  }

  lemma {:induction false} SkipPadding(padding: string, rest: string)
    requires forall c :: c in padding ==> IsWhitespace(c)
    ensures Words(padding + rest) == Words(rest)
    decreases |padding|
  {
    if padding == [] {
      assert padding + rest == rest;
    } else {
      assert (padding + rest)[1..] == padding[1..] + rest;
      SkipPadding(padding[1..], rest);
    }
  }
}
