/** Closing what the child would inherit, between fork and exec. */
module InheritedFds {
  import opened Wrappers
  import opened Text

  /** `parse::<i32>`, for a directory entry. */
  function ParseFd(name: string): Option<int> {
    var negative := |name| > 1 && name[0] == '-';
    var magnitude :=
      if !negative then ParseUnsigned(name, I32_MAX)
      else if name[1] == '+' then None
      else ParseUnsigned(name[1..], I32_MAX + 1);
    if magnitude.None? then None
    else
      var n: int := magnitude.value;
      Some(if negative then -n else n)
  }

  /** What close_range answers. */
  datatype CloseRange = Closed | NoSuchSyscall | Refused(errno: int)

  class FdTable {
    var open: set<int>

    constructor (open: set<int>)
      ensures this.open == open
    {
      this.open := open;
    }

    /** `close`; an fd that is not open is an error, which is ignored. */
    method Close(fd: int)
      modifies this
      ensures open == old(open) - {fd}
    {
      open := open - {fd};
    }
  }

  function Standard(open: set<int>): (standard: set<int>)
    ensures forall fd :: fd in standard <==> fd in open && fd <= 2
  {
    set fd | fd in open && fd <= 2
  }

  /** The kernel's promise about /proc/self/fd: every open fd is listed, in decimal. */
  ghost predicate Lists(names: seq<string>, open: set<int>) {
    forall fd :: fd in open && fd > 2 ==> fd <= I32_MAX && Decimal(fd) in names
  }

  /** A listed name is read back as its fd. */
  lemma ListedFdIsRead(fd: nat)
    requires fd <= I32_MAX
    ensures ParseFd(Decimal(fd)) == Some(fd)
  {
    ParseDecimal(fd, I32_MAX);
    assert Decimal(fd)[0] in Decimal(fd);
  }

  /** A minus sign is read as one, down to the smallest i32; so no such name is closed. */
  lemma NegativeIsRead(n: nat)
    ensures var fd := ParseFd("-" + Decimal(n));
            if n <= I32_MAX + 1 then fd.Some? && fd.value + n == 0 else fd.None?
  {
    var name := "-" + Decimal(n);
    assert name[1..] == Decimal(n) && name[1] == Decimal(n)[0] && Decimal(n)[0] in Decimal(n);
    ParseDecimal(n, I32_MAX + 1);
  }

  lemma ListedFdsAreRead(names: seq<string>, open: set<int>)
    requires Lists(names, open)
    ensures forall fd :: fd in open && fd > 2 ==> exists name :: name in names && ParseFd(name) == Some(fd)
  {
    forall fd | fd in open && fd > 2 ensures exists name :: name in names && ParseFd(name) == Some(fd) {
      ListedFdIsRead(fd);
      assert Decimal(fd) in names;
    }
  }

  /** The fds to close, collected before any is closed. */
  method Collect(names: seq<string>) returns (toClose: seq<int>)
    ensures forall fd :: fd in toClose <==> fd > 2 && exists name :: name in names && ParseFd(name) == Some(fd)
  {
    toClose := [];
    for i := 0 to |names|
      invariant forall fd :: fd in toClose <==>
                             fd > 2 && exists j :: 0 <= j < i && ParseFd(names[j]) == Some(fd)
    {
      var parsed := ParseFd(names[i]);
      if parsed.Some? && parsed.value > 2 {
        toClose := toClose + [parsed.value];
      }
    }
  }

  /**
   Only the standard fds are left when close_range does it, or when it is not there and /proc/self/fd
   can be read.  Otherwise nothing is closed, and where close_range is not there the answer is still
   Ok.
   */
  method CloseInheritedFds(table: FdTable, closeRange: CloseRange, listing: Option<seq<string>>)
    returns (r: Result<(), int>)
    requires listing.Some? ==> Lists(listing.value, table.open)
    modifies table
    ensures r == if closeRange.Refused? then Err(closeRange.errno) else Ok(())
    ensures table.open == if closeRange.Closed? || (closeRange.NoSuchSyscall? && listing.Some?)
                          then Standard(old(table.open)) else old(table.open)
  {
    match closeRange {
      case Closed =>
        table.open := Standard(table.open);
        return Ok(());
      case Refused(errno) =>
        return Err(errno);
      case NoSuchSyscall =>
    }
    if listing.None? {
      return Ok(());
    }
    ListedFdsAreRead(listing.value, table.open);
    var toClose := Collect(listing.value);
    for i := 0 to |toClose|
      invariant table.open == set fd | fd in old(table.open) && fd !in toClose[..i]
    {
      table.Close(toClose[i]);
    }
    assert toClose[..|toClose|] == toClose;
    r := Ok(());
  }
}
