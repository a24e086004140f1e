/**
 The naming half of the log package's file handling: the process identity
 computed once at start-up (short host name, sanitised user name), and the
 name of a new log file together with the name of the per-tag symlink that
 points at the latest one.

 The process-wide variables of the package (program, pid, host, user name)
 are passed in explicitly as an `Identity`; the results of the host-name
 and current-user lookups are passed in as `Option`s, None standing for a
 failed lookup.
 */
module LogFile {
  import opened Wrappers
  import opened Decimal
  import opened Stamp
  import Strings

  // ---------------------------------------------------------------------
  // Process identity
  // ---------------------------------------------------------------------

  /** Placeholders kept when a lookup fails at start-up. */
  const UnknownHost: string := "unknownhost"
  const UnknownUser: string := "unknownuser"

  /** The host name truncated at its first period: "www.google.com" gives
      "www", a name without a period is kept whole. */
  function ShortHostname(hostname: string): (short: string)
    ensures '.' !in short
    ensures short <= hostname
    ensures |short| < |hostname| ==> hostname[|short|] == '.'
    ensures '.' !in hostname ==> short == hostname
  {
    var i := Strings.Index(hostname, '.');
    if i >= 0 then hostname[..i] else hostname
  }

  /** The user name made safe for a file name: every backslash (the Windows
      separator in DOMAIN\user) becomes '_'; nothing else changes. */
  function SanitizeUserName(userName: string): (safe: string)
    ensures |safe| == |userName|
    ensures forall i :: 0 <= i < |userName| && userName[i] == '\\' ==> safe[i] == '_'
    ensures forall i :: 0 <= i < |userName| && userName[i] != '\\' ==> safe[i] == userName[i]
    ensures '\\' !in safe
  {
    Strings.ReplaceAll(userName, '\\', '_')
  }

  /** What the package records about the running process. */
  datatype Identity = Identity(program: string, pid: nat, host: string, userName: string)

  /** Start-up: the host name is shortened when its lookup succeeded, the
      user name is the looked-up one or the placeholder, and is sanitised
      in either case. */
  function InitIdentity(program: string, pid: nat, hostname: Option<string>, currentUser: Option<string>)
    : (id: Identity)
    ensures id.program == program && id.pid == pid
    ensures '.' !in id.host && '\\' !in id.userName
    ensures hostname.None? ==> id.host == UnknownHost
    ensures hostname.Some? ==> id.host <= hostname.value
    ensures hostname.Some? && |id.host| < |hostname.value| ==> hostname.value[|id.host|] == '.'
    ensures currentUser.None? ==> id.userName == UnknownUser
    ensures currentUser.Some? ==> |id.userName| == |currentUser.value|
    ensures currentUser.Some? ==> forall i :: 0 <= i < |currentUser.value| ==>
      id.userName[i] == if currentUser.value[i] == '\\' then '_' else currentUser.value[i]
  {
    PlaceholdersClean();
    SanitizeFixedPoint(UnknownUser);
    var host := if hostname.Some? then ShortHostname(hostname.value) else UnknownHost;
    var user := currentUser.GetOr(UnknownUser);
    Identity(program, pid, host, SanitizeUserName(user))
  }

  // ---------------------------------------------------------------------
  // Properties of the identity functions
  // ---------------------------------------------------------------------

  /** The placeholders are already a valid short host name and a sanitised
      user name. */
  lemma PlaceholdersClean()
    ensures '.' !in UnknownHost
    ensures '\\' !in UnknownUser
  {
  }

  /** The short host name is the one prefix of the host name that has no
      period and is followed by a period or by nothing. */
  lemma ShortHostnameCharacterised(hostname: string, r: string)
    ensures (r <= hostname && '.' !in r && (|r| == |hostname| || hostname[|r|] == '.'))
      <==> r == ShortHostname(hostname)
  {
    var s := ShortHostname(hostname);
    if r <= hostname && '.' !in r && (|r| == |hostname| || hostname[|r|] == '.') {
      assert |r| == |s|;
      assert r == hostname[..|r|] == s;
    }
  }

  /** Shortening a short host name changes nothing. */
  lemma ShortHostnameIdempotent(hostname: string)
    ensures ShortHostname(ShortHostname(hostname)) == ShortHostname(hostname)
  {
  }

  /** The documented example. */
  lemma ShortHostnameExample()
    ensures ShortHostname("www.google.com") == "www"
  {
  }

  /** Only the first of several periods matters. */
  lemma ShortHostnameFirstPeriod()
    ensures ShortHostname("a.b.c") == "a"
  {
    ShortHostnameCharacterised("a.b.c", "a");
  }

  /** A user name is left unchanged exactly when it holds no backslash. */
  lemma SanitizeFixedPoint(userName: string)
    ensures SanitizeUserName(userName) == userName <==> '\\' !in userName
  {
    var safe := SanitizeUserName(userName);
    if '\\' in userName {
      var i :| 0 <= i < |userName| && userName[i] == '\\';
      assert safe[i] == '_';
    } else {
      assert forall i :: 0 <= i < |userName| ==> safe[i] == userName[i];
    }
  }

  /** Sanitising twice is sanitising once. */
  lemma SanitizeIdempotent(userName: string)
    ensures SanitizeUserName(SanitizeUserName(userName)) == SanitizeUserName(userName)
  {
    SanitizeFixedPoint(SanitizeUserName(userName));
  }

  /** Only the backslash is replaced: a '/' stays where it was. */
  lemma SanitizeKeepsSlash(userName: string, i: nat)
    requires i < |userName| && userName[i] == '/'
    ensures SanitizeUserName(userName)[i] == '/'
  {
  }

  // ---------------------------------------------------------------------
  // Log file and symlink names
  // ---------------------------------------------------------------------

  /** The names `create` uses: the new file's, and the per-tag symlink's. */
  datatype Names = Names(file: string, link: string)

  /** `<program>.<host>.<user>.log.`: the part of a file name fixed by the
      process identity. */
  function Head(id: Identity): string {
    id.program + "." + id.host + "." + id.userName + ".log."
  }

  /** Prefix test by length and slice; used instead of the built-in `<=` for
      the long concatenations of a file name, where `<=` is costly to prove. */
  predicate StartsWith(s: string, prefix: string) {
    |prefix| <= |s| && s[..|prefix|] == prefix
  }

  predicate EndsWith(s: string, suffix: string) {
    |suffix| <= |s| && s[|s| - |suffix|..] == suffix
  }

  /** `a + b` starts with `a` and ends with `b`. */
  lemma Affixes(a: string, b: string)
    ensures StartsWith(a + b, a)
    ensures EndsWith(a + b, b)
  {
    assert (a + b)[..|a|] == a;
    assert (a + b)[|a|..] == b;
  }

  lemma StartsWithTransitive(s: string, b: string, a: string)
    requires StartsWith(s, b) && StartsWith(b, a)
    ensures StartsWith(s, a)
  {
    assert s[..|a|] == s[..|b|][..|a|];
  }

  lemma HeadStartsWithProgram(id: Identity)
    ensures StartsWith(Head(id), id.program + ".")
  {
    var p := id.program + ".";
    var rest := id.host + "." + id.userName + ".log.";
    assert Head(id) == p + rest;
    Affixes(p, rest);
  }

  /** `<head><tag>.<stamp>.<pid>`, the way the file name is put together
      from its parts. */
  function Assemble(head: string, tag: string, stamp: string, pid: string): (file: string)
    ensures StartsWith(file, head)
    ensures StartsWith(file, head + tag + ".")
    ensures EndsWith(file, "." + pid)
    ensures |file| == |head| + |tag| + |stamp| + |pid| + 2
  {
    var prefix := head + tag + ".";
    var file := prefix + (stamp + "." + pid);
    assert file == prefix + stamp + "." + pid;
    Affixes(prefix, stamp + "." + pid);
    Affixes(prefix + stamp, "." + pid);
    Affixes(head, tag + ".");
    assert prefix == head + (tag + ".");
    StartsWithTransitive(file, prefix, head);
    file
  }

  /** `<program>.<host>.<user>.log.<tag>.<YYYYMMDD>-<HHMMSS>.<pid>` and
      `<program>.<tag>`. */
  function LogName(id: Identity, tag: string, t: DateTime): (r: Names)
    ensures r.link == id.program + "." + tag
    ensures StartsWith(r.file, id.program + ".")
    ensures StartsWith(r.file, Head(id) + tag + ".")
    ensures EndsWith(r.file, "." + NatToString(id.pid))
    ensures Valid(t) ==> |r.file| == |Head(id)| + |tag| + 17 + |NatToString(id.pid)|
  {
    var file := Assemble(Head(id), tag, Format(t), NatToString(id.pid));
    HeadStartsWithProgram(id);
    StartsWithTransitive(file, Head(id), id.program + ".");
    Names(file, id.program + "." + tag)
  }

  /** Reads `<YYYYMMDD>-<HHMMSS>.<pid>` back into the start time and the
      process id; None for any other string. */
  function DecodeTail(tail: string): (r: Option<(DateTime, nat)>)
    ensures r.Some? ==> |tail| >= 17 && tail[15] == '.'
  {
    if |tail| >= 17 && tail[15] == '.' && AllDigits(tail[16..]) then
      var stamp := ParseStamp(tail[..15]);
      if stamp.Some? then Some((stamp.value, ParseDecimal(tail[16..]))) else None
    else
      None
  }

  /** Reads the start time and the process id back from a file name whose
      identity part and tag are known; None when the name does not have
      that form. */
  function DecodeName(head: string, tag: string, file: string): (r: Option<(DateTime, nat)>)
    ensures r.Some? ==> StartsWith(file, head + tag + ".")
  {
    var prefix := head + tag + ".";
    if StartsWith(file, prefix) then DecodeTail(file[|prefix|..]) else None
  }

  /** Decoding a stamp and a pid joined by '.' returns the stamp's time and
      the pid's value. */
  lemma DecodeTailJoined(stamp: string, pid: string)
    requires IsStampShape(stamp)
    requires |pid| >= 1 && AllDigits(pid)
    ensures DecodeTail(stamp + "." + pid) == Some((ParseStamp(stamp).value, ParseDecimal(pid)))
  {
    var tail := stamp + "." + pid;
    assert tail[..15] == stamp;
    assert tail[15] == '.';
    assert tail[16..] == pid;
  }

  /** Decoding an assembled name returns the stamp's time and the pid's value. */
  lemma DecodeAssembled(head: string, tag: string, stamp: string, pid: string)
    requires IsStampShape(stamp)
    requires |pid| >= 1 && AllDigits(pid)
    ensures DecodeName(head, tag, Assemble(head, tag, stamp, pid))
      == Some((ParseStamp(stamp).value, ParseDecimal(pid)))
  {
    var prefix := head + tag + ".";
    var tail := stamp + "." + pid;
    var file := Assemble(head, tag, stamp, pid);
    assert file[|prefix|..] == tail;
    DecodeTailJoined(stamp, pid);
  }

  /** The start time and the process id can be read back from a log file
      name whose identity part and tag are known. */
  lemma LogNameDecode(id: Identity, tag: string, t: DateTime)
    requires Valid(t)
    ensures DecodeName(Head(id), tag, LogName(id, tag, t).file) == Some((t, id.pid))
  {
    DecodeAssembled(Head(id), tag, Format(t), NatToString(id.pid));
    FormatParse(t);
    ParseNatToString(id.pid);
  }

  /** In `a.d` where `d` holds no '.', the '.' after `a` is the last one. */
  lemma LastDot(a: string, d: string)
    requires '.' !in d
    ensures (a + "." + d)[|a|] == '.'
    ensures forall j :: |a| < j < |a + "." + d| ==> (a + "." + d)[j] != '.'
  {
    var x := a + "." + d;
    forall j | |a| < j < |x|
      ensures x[j] != '.'
    {
      assert x[j] == d[j - |a| - 1];
    }
  }

  /** The text after the last '.' is determined: when neither tail contains
      a '.', equal strings split the same way. */
  lemma SplitAtLastDot(a1: string, d1: string, a2: string, d2: string)
    requires a1 + "." + d1 == a2 + "." + d2
    requires '.' !in d1 && '.' !in d2
    ensures a1 == a2 && d1 == d2
  {
    var x := a1 + "." + d1;
    LastDot(a1, d1);
    LastDot(a2, d2);
    if |a1| < |a2| {
      assert false;
    } else if |a2| < |a1| {
      assert false;
    }
    assert d1 == x[|a1| + 1..] == d2;
    assert a1 == x[..|a1|] == a2;
  }

  /** With a common head, a fixed-width stamp and a pid without '.', an
      assembled name determines the tag, the stamp and the pid. */
  lemma AssembleInjective(head: string, tag1: string, stamp1: string, pid1: string,
                          tag2: string, stamp2: string, pid2: string)
    requires |stamp1| == |stamp2|
    requires '.' !in pid1 && '.' !in pid2
    requires Assemble(head, tag1, stamp1, pid1) == Assemble(head, tag2, stamp2, pid2)
    ensures tag1 == tag2 && stamp1 == stamp2 && pid1 == pid2
  {
    var f := Assemble(head, tag1, stamp1, pid1);
    var a1, a2 := tag1 + "." + stamp1, tag2 + "." + stamp2;
    assert f == head + (a1 + "." + pid1);
    assert f == head + (a2 + "." + pid2);
    assert a1 + "." + pid1 == f[|head|..] == a2 + "." + pid2;
    SplitAtLastDot(a1, pid1, a2, pid2);
    assert stamp1 == a1[|a1| - |stamp1|..] == stamp2;
    assert tag1 == a1[..|tag1|] == tag2;
  }

  /** A decimal rendering holds no '.'. */
  lemma NoDotInDecimal(n: nat)
    ensures '.' !in NatToString(n)
  {
    var s := NatToString(n);
    assert forall i :: 0 <= i < |s| ==> IsDigit(s[i]);
  }

  /** For one program, host and user, the file name determines the tag, the
      start time and the process id: two calls name the same file only when
      all three agree. Host, user and tag may themselves contain '.', so the
      identity part cannot be recovered from the name alone. */
  lemma LogNameInjective(id1: Identity, id2: Identity, tag1: string, tag2: string, t1: DateTime, t2: DateTime)
    requires Head(id1) == Head(id2)
    requires Valid(t1) && Valid(t2)
    ensures LogName(id1, tag1, t1).file == LogName(id2, tag2, t2).file
      <==> tag1 == tag2 && t1 == t2 && id1.pid == id2.pid
  {
    if LogName(id1, tag1, t1).file == LogName(id2, tag2, t2).file {
      NoDotInDecimal(id1.pid);
      NoDotInDecimal(id2.pid);
      AssembleInjective(Head(id1), tag1, Format(t1), NatToString(id1.pid),
        tag2, Format(t2), NatToString(id2.pid));
      NatToStringInjective(id1.pid, id2.pid);
      FormatInjective(t1, t2);
    }
  }

  /** Two tags share a symlink only when they are the same tag. */
  lemma LinkInjective(id: Identity, tag1: string, tag2: string, t1: DateTime, t2: DateTime)
    ensures LogName(id, tag1, t1).link == LogName(id, tag2, t2).link <==> tag1 == tag2
  {
    var l1, l2 := LogName(id, tag1, t1).link, LogName(id, tag2, t2).link;
    if l1 == l2 {
      assert tag1 == l1[|id.program| + 1..] == tag2;
    }
  }

  /** The symlink name depends on the program and the tag only: the time,
      host, user and pid do not change it. */
  lemma LinkIgnoresTimeAndProcess(id1: Identity, id2: Identity, tag: string, t1: DateTime, t2: DateTime)
    requires id1.program == id2.program
    ensures LogName(id1, tag, t1).link == LogName(id2, tag, t2).link
  {
  }

  /** Two files created for different tags by one process get different
      names and different symlinks, whatever their start times. */
  lemma DistinctTagsDistinctNames(id: Identity, tag1: string, tag2: string, t1: DateTime, t2: DateTime)
    requires Valid(t1) && Valid(t2)
    requires tag1 != tag2
    ensures LogName(id, tag1, t1).file != LogName(id, tag2, t2).file
    ensures LogName(id, tag1, t1).link != LogName(id, tag2, t2).link
  {
    LogNameInjective(id, id, tag1, tag2, t1, t2);
    LinkInjective(id, tag1, tag2, t1, t2);
  }
}
