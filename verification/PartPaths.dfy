/** The names of stored parts: `px/<sha>.bin` for a buffer, `f/<frame>/r<rev>.json` for a revision
    record, and the pattern collection reads a revision number back with. */
module PartPaths {
  import opened Basics

  predicate IsDigit(c: char) {
    '0' <= c <= '9'
  }

  predicate IsHex(c: char) {
    IsDigit(c) || 'a' <= c <= 'f'
  }

  predicate IsWord(c: char) {
    IsDigit(c) || 'a' <= c <= 'z' || 'A' <= c <= 'Z' || c == '_' || c == '-'
  }

  /** Every character outside the safe set becomes an underscore. */
  function Sanitize(id: string): (s: string)
    ensures |s| == |id| && forall i :: 0 <= i < |s| ==> IsWord(s[i])
    ensures forall i :: 0 <= i < |id| ==>
              var c := id[i];
              s[i] == if '0' <= c <= '9' || 'A' <= c <= 'Z' || 'a' <= c <= 'z' || c == '_' || c == '-' then c else '_'
  {
    seq(|id|, i requires 0 <= i < |id| => if IsWord(id[i]) then id[i] else '_')
  }

  function Digit(d: nat): (c: char)
    requires d < 10
    ensures IsDigit(c) && DigitValue(c) == d
  {
    '0' + (d as char)
  }

  function DigitValue(c: char): nat
    requires IsDigit(c)
  {
    (c - '0') as nat
  }

  /** A number in decimal. */
  function Decimal(n: nat): (s: string)
    ensures |s| > 0 && AllDigits(s)
  {
    if n < 10 then [Digit(n)] else Decimal(n / 10) + [Digit(n % 10)]
  }

  predicate AllDigits(s: string) {
    forall i :: 0 <= i < |s| ==> IsDigit(s[i])
  }

  function Number(s: string): nat
    requires AllDigits(s)
  {
    if s == "" then 0 else Number(s[..|s| - 1]) * 10 + DigitValue(s[|s| - 1])
  }

  lemma {:induction false} NumberOfDecimal(n: nat)
    ensures Number(Decimal(n)) == n
  {
    if n >= 10 {
      NumberOfDecimal(n / 10);
      var s := Decimal(n);
      assert s[..|s| - 1] == Decimal(n / 10);
    } else {
      assert Decimal(n)[..0] == "";
    }
  }

  /** How many characters at the end of s satisfy p. */
  function Run(s: string, p: char -> bool): (n: nat)
    ensures n <= |s| && (forall i :: |s| - n <= i < |s| ==> p(s[i])) && (n < |s| ==> !p(s[|s| - n - 1]))
  {
    if s == "" || !p(s[|s| - 1]) then 0 else 1 + Run(s[..|s| - 1], p)
  }

  /** A run that is stopped by a character is found by length. */
  lemma {:induction false} RunIs(front: string, stop: char, tail: string, p: char -> bool)
    requires !p(stop) && forall i :: 0 <= i < |tail| ==> p(tail[i])
    ensures Run(front + [stop] + tail, p) == |tail|
  {
    var s := front + [stop] + tail;
    if tail != "" {
      RunIs(front, stop, tail[..|tail| - 1], p);
      assert s[..|s| - 1] == front + [stop] + tail[..|tail| - 1];
    }
  }

  const JSON := ".json"

  predicate EndsWith(s: string, end: string) {
    |s| >= |end| && s[|s| - |end|..] == end
  }

  function BlobPath(sha: string): string {
    "px/" + sha + ".bin"
  }

  /** The folder of a frame's records. */
  function FrameDir(frame: string): string {
    "f/" + Sanitize(frame) + "/"
  }

  function RecordPath(frame: string, rev: nat): string {
    FrameDir(frame) + "r" + Decimal(rev) + JSON
  }

  /** The number after a closing "/r". */
  function RevAtEnd(s: string): Option<nat> {
    var d := Run(s, IsDigit);
    if d > 0 && |s| - d >= 2 && s[|s| - d - 2..|s| - d] == "/r" then Some(Number(s[|s| - d..])) else None
  }

  /** The revision a record's path names: `/r<digits>.json` or `/r<digits>-<hex>.json` at its end. */
  function RevOf(path: string): Option<nat> {
    if !EndsWith(path, JSON) then None
    else
      var s := path[..|path| - |JSON|];
      var h := Run(s, IsHex);
      if RevAtEnd(s).Some? then RevAtEnd(s)
      else if h > 0 && h < |s| && s[|s| - h - 1] == '-' then RevAtEnd(s[..|s| - h - 1])
      else None
  }

  // ---- what the names guarantee --------------------------------------------------------------

  lemma BlobPathInjective(a: string, b: string)
    requires BlobPath(a) == BlobPath(b)
    ensures a == b
  {
    assert a == BlobPath(a)[3..|BlobPath(a)| - 4];
    assert b == BlobPath(b)[3..|BlobPath(b)| - 4];
  }

  /** Buffers and records never share a name. */
  lemma FoldersDiffer(p: string)
    ensures !("px/" <= p && "f/" <= p)
    ensures forall sha :: "px/" <= BlobPath(sha)
  {
    if "px/" <= p {
      assert p[0] == 'p';
    }
  }

  /** A frame whose id holds a slash, at its twelfth revision, and a buffer. */
  lemma PathsLook()
    ensures RecordPath("u/Z-9", 12) == "f/u_Z-9/r12.json" && FrameDir("u/Z-9") == "f/u_Z-9/"
    ensures BlobPath("c0de") == "px/c0de.bin"
  {
    assert Sanitize("u/Z-9") == "u_Z-9";
    assert Decimal(12) == Decimal(1) + [Digit(2)] == "12";
  }

  lemma RecordPathShape(frame: string, rev: nat)
    ensures "f/" <= FrameDir(frame) && FrameDir(frame) <= RecordPath(frame, rev) && "f/" <= RecordPath(frame, rev)
    ensures EndsWith(RecordPath(frame, rev), JSON)
  {
  }

  lemma RevAtEndOf(front: string, rev: nat)
    ensures RevAtEnd(front + "/r" + Decimal(rev)) == Some(rev)
  {
    hide RevAtEnd, Decimal, Number;
    RevAfter(front, Decimal(rev));
    NumberOfDecimal(rev);
  }

  lemma RevAfter(front: string, digits: string)
    requires digits != "" && AllDigits(digits)
    ensures RevAtEnd(front + "/r" + digits) == Some(Number(digits))
  {
    hide Number;
    var s := front + "/r" + digits;
    assert s == (front + "/") + ['r'] + digits;
    RunIs(front + "/", 'r', digits, IsDigit);
    assert s[|s| - |digits| - 2..|s| - |digits|] == "/r" by {
      assert s[|s| - |digits| - 1] == 'r' && s[|s| - |digits| - 2] == '/';
    }
    assert s[|s| - |digits|..] == digits;
  }

  /** The pattern reads back the revision a record was named with. */
  lemma RevOfRecordPath(frame: string, rev: nat)
    ensures RevOf(RecordPath(frame, rev)) == Some(rev)
  {
    RecordPathShape(frame, rev);
    var p, front := RecordPath(frame, rev), "f/" + Sanitize(frame);
    assert p[..|p| - |JSON|] == front + "/r" + Decimal(rev);
    RevAtEndOf(front, rev);
  }

  /** It also reads the revision of a record named with a content hash after its number. */
  lemma RevOfHashedPath(frame: string, rev: nat, hash: string)
    requires hash != "" && forall i :: 0 <= i < |hash| ==> IsHex(hash[i])
    ensures RevOf(FrameDir(frame) + "r" + Decimal(rev) + "-" + hash + JSON) == Some(rev)
  {
    hide RevOf, Sanitize, Decimal;
    var front := "f/" + Sanitize(frame);
    assert FrameDir(frame) + "r" + Decimal(rev) == front + "/r" + Decimal(rev);
    RevAtEndOf(front, rev);
    RevOfHashed(front + "/r" + Decimal(rev), hash);
  }

  lemma RevOfHashed(base: string, hash: string)
    requires hash != "" && forall i :: 0 <= i < |hash| ==> IsHex(hash[i])
    ensures RevOf(base + "-" + hash + JSON) == RevAtEnd(base)
  {
    hide RevAtEnd;
    var s := base + ['-'] + hash;
    var p := base + "-" + hash + JSON;
    assert p == s + JSON && p[..|s|] == s && p[|s|..] == JSON;
    RunIs(base, '-', hash, IsHex);
    assert s[..|base|] == base && s[|base|] == '-';
    NoRevBehindHash(base, hash);
  }

  lemma NoRevBehindHash(base: string, hash: string)
    requires hash != "" && forall i :: 0 <= i < |hash| ==> IsHex(hash[i])
    ensures RevAtEnd(base + ['-'] + hash) == None
  {
    var s := base + ['-'] + hash;
    var d := Run(s, IsDigit);
    assert s[|base|] == '-';
    assert d <= |hash|;
    var k := |s| - d - 1;
    assert s[k] == '-' || IsHex(s[k]);
    if d > 0 && |s| - d >= 2 {
      assert s[k - 1..k + 1][1] == s[k];
    }
  }

  /** The path is something, `/r`, digits, perhaps a dash and a hash in hex, and `.json`. */
  predicate IsRevisionPath(path: string, front: string, digits: string, tail: string) {
    && path == front + "/r" + digits + tail + ".json" && digits != "" && AllDigits(digits)
    && (tail == "" || (|tail| > 1 && tail[0] == '-' && forall i :: 1 <= i < |tail| ==> IsHex(tail[i])))
  }

  /** On any path whatever, the pattern gives a number exactly when the path has that form, and then the one its
      digits spell. */
  lemma RevOfMeans(path: string, n: nat)
    ensures RevOf(path) == Some(n)
            <==> exists front, digits, tail :: IsRevisionPath(path, front, digits, tail) && n == Number(digits)
  {
    hide RevOf, Number;
    if front, digits, tail :| IsRevisionPath(path, front, digits, tail) && n == Number(digits) {
      RevOfForm(path, front, digits, tail);
    }
    if RevOf(path) == Some(n) {
      var _, _, _ := FormOfRev(path, n);
    }
  }

  lemma RevOfForm(path: string, front: string, digits: string, tail: string)
    requires IsRevisionPath(path, front, digits, tail)
    ensures RevOf(path) == Some(Number(digits))
  {
    hide RevAtEnd, Number;
    var base := front + "/r" + digits;
    RevAfter(front, digits);
    if tail == "" {
      assert path == base + JSON && path[..|path| - |JSON|] == base;
    } else {
      assert tail == "-" + tail[1..];
      assert path == base + "-" + tail[1..] + JSON;
      RevOfHashed(base, tail[1..]);
    }
  }

  lemma FormOfRev(path: string, n: nat) returns (front: string, digits: string, tail: string)
    requires RevOf(path) == Some(n)
    ensures IsRevisionPath(path, front, digits, tail) && n == Number(digits)
  {
    hide RevAtEnd, Number;
    var s := path[..|path| - |JSON|];
    assert path == s + JSON;
    if RevAtEnd(s).Some? {
      tail := "";
      front, digits := FormAtEnd(s, n);
      assert path == front + "/r" + digits + tail + ".json";
    } else {
      var h := Run(s, IsHex);
      var base := s[..|s| - h - 1];
      tail := s[|s| - h - 1..];
      assert s == base + tail;
      front, digits := FormAtEnd(base, n);
      assert path == front + "/r" + digits + tail + ".json";
    }
  }

  lemma FormAtEnd(s: string, n: nat) returns (front: string, digits: string)
    requires RevAtEnd(s) == Some(n)
    ensures s == front + "/r" + digits && digits != "" && AllDigits(digits) && n == Number(digits)
  {
    var d := Run(s, IsDigit);
    front, digits := s[..|s| - d - 2], s[|s| - d..];
    assert s == front + s[|s| - d - 2..|s| - d] + digits;
  }

  /** A record lies only in the folder of its own sanitised frame id. */
  lemma FrameDirOfRecord(frame: string, rev: nat, other: string)
    requires FrameDir(other) <= RecordPath(frame, rev)
    ensures Sanitize(other) == Sanitize(frame)
  {
    var a, b, p := Sanitize(frame), Sanitize(other), RecordPath(frame, rev);
    assert p[2..2 + |a|] == a && p[2 + |a|] == '/';
    assert p[2..2 + |b|] == b && p[2 + |b|] == '/' by {
      assert FrameDir(other)[2..2 + |b|] == b && FrameDir(other)[2 + |b|] == '/';
    }
    assert forall i :: 0 <= i < |a| ==> p[2 + i] == a[i];
    assert forall i :: 0 <= i < |b| ==> p[2 + i] == b[i];
    if |a| < |b| {
      assert false;
    } else if |b| < |a| {
      assert false;
    }
  }

  lemma RecordPathInjective(a: string, i: nat, b: string, j: nat)
    requires RecordPath(a, i) == RecordPath(b, j)
    ensures Sanitize(a) == Sanitize(b) && i == j
  {
    RecordPathShape(a, i);
    FrameDirOfRecord(b, j, a);
    RevOfRecordPath(a, i);
    RevOfRecordPath(b, j);
  }
}
