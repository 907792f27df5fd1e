/** checksums.sha256: one "digest, two spaces, path, newline" line per payload file. */
module ChecksumFile {
  import opened BundleNames
  import opened Text

  datatype Entry = Entry(path: string, digest: Digest)

  datatype ParseError = ChecksumsInvalid | ArchiveUnsafe

  datatype Parsed = Entries(entries: map<string, Digest>) | Malformed(error: ParseError)

  /** The boundaries of str.splitlines; the name check knows only the first two. */
  predicate IsBoundary(c: char) {
    var n := c as int;
    || n == 0x0A || n == 0x0D || n == 0x0B || n == 0x0C || n == 0x1C || n == 0x1D || n == 0x1E
    || n == 0x85 || n == 0x2028 || n == 0x2029
  }

  predicate BoundaryFree(s: string) {
    forall i :: 0 <= i < |s| ==> !IsBoundary(s[i])
  }

  function LineLength(s: string): (n: nat)
    ensures n <= |s| && BoundaryFree(s[..n])
    ensures n < |s| ==> IsBoundary(s[n])
  {
    if s == [] || IsBoundary(s[0]) then 0
    else
      var n := LineLength(s[1..]);
      assert s[..1 + n] == [s[0]] + s[1..][..n];
      1 + n
  }

  /** str.splitlines: "\r\n" is one boundary and a final boundary opens no empty line. */
  function SplitLines(s: string): (lines: seq<string>)
    ensures forall i :: 0 <= i < |lines| ==> BoundaryFree(lines[i])
    decreases |s|
  {
    var n := LineLength(s);
    if s == [] then []
    else if n == |s| then [s[..n]]
    else
      var width := if n + 1 < |s| && s[n] == '\r' && s[n + 1] == '\n' then 2 else 1;
      [s[..n]] + SplitLines(s[n + width..])
  }

  function Line(e: Entry): string {
    e.digest + "  " + e.path
  }

  function Lines(entries: seq<Entry>): seq<string> {
    seq(|entries|, i requires 0 <= i < |entries| => Line(entries[i]))
  }

  function Terminated(lines: seq<string>): string {
    if lines == [] then "" else lines[0] + "\n" + Terminated(lines[1..])
  }

  /** The text _serialize_checksums writes and _payload_stats hashes. */
  function Serialize(entries: seq<Entry>): string {
    Terminated(Lines(entries))
  }

  predicate Distinct(entries: seq<Entry>) {
    forall i, j :: 0 <= i < j < |entries| ==> entries[i].path != entries[j].path
  }

  function AsMap(entries: seq<Entry>): (m: map<string, Digest>)
    ensures forall p :: p in m <==> exists i :: 0 <= i < |entries| && entries[i].path == p
  {
    if entries == [] then map[]
    else
      var last := entries[|entries| - 1];
      AsMap(entries[..|entries| - 1])[last.path := last.digest]
  }

  /** What one line contributes to the entries read before it. */
  function AddLine(before: Parsed, line: string, maxPathBytes: nat): Parsed {
    if before.Malformed? then before
    else if |line| < 67 || line[64..66] != "  " || !IsDigest(line[..64]) then Malformed(ChecksumsInvalid)
    else if !SafeName(line[66..], maxPathBytes) then Malformed(ArchiveUnsafe)
    else if line[66..] in CRITICAL_FILES || line[66..] in before.entries then Malformed(ChecksumsInvalid)
    else Entries(before.entries[line[66..] := line[..64]])
  }

  function ReadLines(lines: seq<string>, maxPathBytes: nat): Parsed {
    if lines == [] then Entries(map[])
    else AddLine(ReadLines(lines[..|lines| - 1], maxPathBytes), lines[|lines| - 1], maxPathBytes)
  }

  /** What _parse_checksums answers: an empty file is malformed. */
  function Read(text: string, maxPathBytes: nat): Parsed {
    var r := ReadLines(SplitLines(text), maxPathBytes);
    if r == Entries(map[]) then Malformed(ChecksumsInvalid) else r
  }

  lemma {:induction false} MalformedStays(lines: seq<string>, k: nat, maxPathBytes: nat)
    requires k <= |lines|
    ensures ReadLines(lines[..k], maxPathBytes).Malformed? ==>
              ReadLines(lines, maxPathBytes) == ReadLines(lines[..k], maxPathBytes)
    decreases |lines| - k
  {
    if k < |lines| {
      assert lines[..k + 1][..k] == lines[..k];
      MalformedStays(lines, k + 1, maxPathBytes);
    } else {
      assert lines[..k] == lines;
    }
  }

  /** A line names a payload file: 64 hexadecimal digits, two spaces, a safe path that is no metadata name. */
  ghost predicate NamesPayload(line: string, maxPathBytes: nat) {
    && |line| >= 67 && line[64..66] == "  "
    && (forall j :: 0 <= j < 64 ==> '0' <= line[j] <= '9' || 'a' <= line[j] <= 'f')
    && SafeName(line[66..], maxPathBytes)
    && line[66..] !in {"manifest.json", "manifest.sig", "checksums.sha256"}
  }

  /** Every line names a payload file, and no two the same one. */
  ghost predicate WellFormed(lines: seq<string>, maxPathBytes: nat) {
    && (forall i :: 0 <= i < |lines| ==> NamesPayload(lines[i], maxPathBytes))
    && forall i, j :: 0 <= i < j < |lines| && |lines[i]| >= 67 && |lines[j]| >= 67 ==>
         lines[i][66..] != lines[j][66..]
  }

  /** The entries are those the lines name. */
  ghost predicate Names(lines: seq<string>, entries: map<string, Digest>) {
    && (forall i :: 0 <= i < |lines| ==>
          |lines[i]| >= 67 && lines[i][66..] in entries && entries[lines[i][66..]] == lines[i][..64])
    && forall p :: p in entries ==> exists i :: 0 <= i < |lines| && |lines[i]| >= 67 && lines[i][66..] == p
  }

  lemma AddLineIff(entries: map<string, Digest>, line: string, maxPathBytes: nat)
    ensures AddLine(Entries(entries), line, maxPathBytes).Entries? <==>
            NamesPayload(line, maxPathBytes) && line[66..] !in entries
    ensures AddLine(Entries(entries), line, maxPathBytes).Entries? ==>
              IsDigest(line[..64]) &&
              AddLine(Entries(entries), line, maxPathBytes).entries == entries[line[66..] := line[..64]]
  {
    hide SafeName;
    if |line| >= 67 {
      assert IsDigest(line[..64]) <==> forall j :: 0 <= j < 64 ==> IsHex(line[..64][j]);
      assert forall j :: 0 <= j < 64 ==> line[..64][j] == line[j];
    }
  }

  lemma WellFormedLast(lines: seq<string>, entries: map<string, Digest>, maxPathBytes: nat)
    requires lines != []
    requires var n := |lines| - 1; WellFormed(lines[..n], maxPathBytes) ==> Names(lines[..n], entries)
    ensures var n := |lines| - 1;
            WellFormed(lines, maxPathBytes) <==>
            && WellFormed(lines[..n], maxPathBytes) && NamesPayload(lines[n], maxPathBytes)
            && lines[n][66..] !in entries
  {
    hide SafeName;
    var n := |lines| - 1;
    assert forall i :: 0 <= i < n ==> lines[..n][i] == lines[i];
  }

  lemma NamesLast(lines: seq<string>, entries: map<string, Digest>)
    requires lines != []
    requires var n := |lines| - 1;
             && Names(lines[..n], entries) && |lines[n]| >= 67 && IsDigest(lines[n][..64])
             && lines[n][66..] !in entries
    ensures var n := |lines| - 1; Names(lines, entries[lines[n][66..] := lines[n][..64]])
  {
    hide IsDigest;
    var n := |lines| - 1;
    var after := entries[lines[n][66..] := lines[n][..64]];
    assert forall i :: 0 <= i < n ==> lines[..n][i] == lines[i];
    forall p | p in after
      ensures exists i :: 0 <= i < |lines| && |lines[i]| >= 67 && lines[i][66..] == p
    {
      if p != lines[n][66..] {
        var i :| 0 <= i < n && |lines[..n][i]| >= 67 && lines[..n][i][66..] == p;
        assert lines[i][66..] == p;
      }
    }
  }

  lemma {:induction false} ReadLinesIff(lines: seq<string>, maxPathBytes: nat)
    ensures ReadLines(lines, maxPathBytes).Entries? <==> WellFormed(lines, maxPathBytes)
    ensures WellFormed(lines, maxPathBytes) ==> Names(lines, ReadLines(lines, maxPathBytes).entries)
  {
    if lines != [] {
      var n := |lines| - 1;
      var before := ReadLines(lines[..n], maxPathBytes);
      ReadLinesIff(lines[..n], maxPathBytes);
      if before.Entries? {
        AddLineIff(before.entries, lines[n], maxPathBytes);
        WellFormedLast(lines, before.entries, maxPathBytes);
        if NamesPayload(lines[n], maxPathBytes) && lines[n][66..] !in before.entries {
          NamesLast(lines, before.entries);
        }
      } else {
        WellFormedLast(lines, map[], maxPathBytes);
      }
      hide AddLine;
      hide WellFormed;
      hide Names;
      hide NamesPayload;
      hide IsDigest;
    }
  }

  /** A checksum file is accepted exactly when it has lines, and all are well formed; it lists what they name. */
  lemma ReadIff(text: string, maxPathBytes: nat)
    ensures Read(text, maxPathBytes).Entries? <==>
            SplitLines(text) != [] && WellFormed(SplitLines(text), maxPathBytes)
    ensures Read(text, maxPathBytes).Entries? ==> Names(SplitLines(text), Read(text, maxPathBytes).entries)
  {
    var lines := SplitLines(text);
    ReadLinesIff(lines, maxPathBytes);
    hide SplitLines;
    hide WellFormed;
    if lines != [] && WellFormed(lines, maxPathBytes) {
      assert lines[0][66..] in ReadLines(lines, maxPathBytes).entries;
    }
    hide ReadLines;
  }

  method ParseChecksums(text: string, maxPathBytes: nat) returns (r: Parsed)
    ensures r == Read(text, maxPathBytes)
    ensures r.Entries? <==> SplitLines(text) != [] && WellFormed(SplitLines(text), maxPathBytes)
    ensures r.Entries? ==> Names(SplitLines(text), r.entries)
  {
    hide WellFormed;
    hide Names;
    hide NamesPayload;
    hide SplitLines;
    hide SafeName;
    hide IsDigest;
    ReadIff(text, maxPathBytes);
    var lines := SplitLines(text);
    var entries: map<string, Digest> := map[];
    for k := 0 to |lines|
      invariant ReadLines(lines[..k], maxPathBytes) == Entries(entries)
    {
      var line := lines[k];
      MalformedStays(lines, k + 1, maxPathBytes);
      assert lines[..k + 1][..k] == lines[..k];
      if line == "" {
        return Malformed(ChecksumsInvalid);
      }
      if |line| < 67 || line[64..66] != "  " {
        return Malformed(ChecksumsInvalid);
      }
      var digest, path := line[..64], line[66..];
      if !IsDigest(digest) {
        return Malformed(ChecksumsInvalid);
      }
      if !SafeName(path, maxPathBytes) {
        return Malformed(ArchiveUnsafe);
      }
      if path in CRITICAL_FILES || path in entries {
        return Malformed(ChecksumsInvalid);
      }
      entries := entries[path := digest];
    }
    assert lines[..|lines|] == lines;
    if entries == map[] {
      return Malformed(ChecksumsInvalid);
    }
    return Entries(entries);
  }

  lemma LineLengthOfLine(line: string, rest: string)
    requires BoundaryFree(line)
    ensures LineLength(line + "\n" + rest) == |line|
  {
    var s := line + "\n" + rest;
    var n := LineLength(s);
    assert forall i :: 0 <= i < |line| ==> s[i] == line[i];
    assert forall i :: 0 <= i < n ==> s[..n][i] == s[i];
    assert s[|line|] == '\n';
  }

  /** A line ended by "\n" alone is split off whole, whatever follows. */
  lemma SplitsOffLine(line: string, rest: string)
    requires BoundaryFree(line)
    ensures SplitLines(line + "\n" + rest) == [line] + SplitLines(rest)
  {
    var s, n := line + "\n" + rest, |line|;
    LineLengthOfLine(line, rest);
    assert s[n] == '\n' && s[n] != '\r';
    assert s[..n] == line && s[n + 1..] == rest;
    hide LineLength;
    hide BoundaryFree;
  }

  lemma {:induction false} SplitTerminated(lines: seq<string>)
    requires forall i :: 0 <= i < |lines| ==> BoundaryFree(lines[i])
    ensures SplitLines(Terminated(lines)) == lines
  {
    hide BoundaryFree;
    if lines == [] {
      assert SplitLines("") == [];
    } else {
      SplitTerminated(lines[1..]);
      SplitsOffLine(lines[0], Terminated(lines[1..]));
      hide SplitLines;
      assert lines == [lines[0]] + lines[1..];
    }
  }

  lemma LineFields(e: Entry)
    ensures |Line(e)| == 66 + |e.path|
    ensures Line(e)[..64] == e.digest && Line(e)[64..66] == "  " && Line(e)[66..] == e.path
  {
  }

  /** Paths a build hands to the checksum file. */
  predicate Writable(entries: seq<Entry>, maxPathBytes: nat) {
    && Distinct(entries)
    && forall i :: 0 <= i < |entries| ==>
         SafeName(entries[i].path, maxPathBytes) && entries[i].path !in CRITICAL_FILES
  }

  lemma AddWritten(m: map<string, Digest>, e: Entry, maxPathBytes: nat)
    requires SafeName(e.path, maxPathBytes) && e.path !in CRITICAL_FILES && e.path !in m
    ensures AddLine(Entries(m), Line(e), maxPathBytes) == Entries(m[e.path := e.digest])
  {
    LineFields(e);
  }

  lemma {:induction false} ReadWritten(entries: seq<Entry>, maxPathBytes: nat)
    requires Writable(entries, maxPathBytes)
    ensures ReadLines(Lines(entries), maxPathBytes) == Entries(AsMap(entries))
  {
    hide SafeName;
    hide Line;
    hide AddLine;
    hide IsDigest;
    if entries != [] {
      var n := |entries| - 1;
      ReadWritten(entries[..n], maxPathBytes);
      LinesGrow(entries);
      assert entries[n].path !in AsMap(entries[..n]);
      AddWritten(AsMap(entries[..n]), entries[n], maxPathBytes);
      hide Lines;
    }
  }

  lemma LinesGrow(entries: seq<Entry>)
    requires entries != []
    ensures var n := |entries| - 1;
            && Lines(entries)[..n] == Lines(entries[..n]) && Lines(entries)[n] == Line(entries[n])
            && |Lines(entries)| == n + 1
  {
    hide Line;
  }

  lemma {:induction false} ReadKeys(lines: seq<string>, maxPathBytes: nat)
    requires ReadLines(lines, maxPathBytes).Entries?
    requires forall i :: 0 <= i < |lines| ==> BoundaryFree(lines[i])
    ensures forall p :: p in ReadLines(lines, maxPathBytes).entries ==>
              SafeName(p, maxPathBytes) && BoundaryFree(p) && p !in CRITICAL_FILES
  {
    if lines != [] {
      var n := |lines| - 1;
      ReadKeys(lines[..n], maxPathBytes);
      var path := lines[n][66..];
      assert forall i :: 0 <= i < |path| ==> path[i] == lines[n][66 + i];
    }
  }

  /** Whatever is read back, no path in it holds a line boundary. */
  lemma ReadPathsAreBoundaryFree(text: string, maxPathBytes: nat)
    requires Read(text, maxPathBytes).Entries?
    ensures forall p :: p in Read(text, maxPathBytes).entries ==>
              SafeName(p, maxPathBytes) && BoundaryFree(p) && p !in CRITICAL_FILES
  {
    ReadKeys(SplitLines(text), maxPathBytes);
  }

  /** None of the ten characters str.splitlines breaks at. */
  ghost predicate OneLine(s: string) {
    forall i :: 0 <= i < |s| ==>
      s[i] as int !in {0x0A, 0x0B, 0x0C, 0x0D, 0x1C, 0x1D, 0x1E, 0x85, 0x2028, 0x2029}
  }

  lemma OneLineIff(s: string)
    ensures OneLine(s) <==> BoundaryFree(s)
  {
  }

  /**
    Reading what was written gives the same entries back exactly when no path holds a line boundary.
    The name check rejects only "\n" and "\r" of the ten.
   */
  lemma RoundTrip(entries: seq<Entry>, maxPathBytes: nat)
    requires entries != [] && Writable(entries, maxPathBytes)
    ensures Read(Serialize(entries), maxPathBytes) == Entries(AsMap(entries)) <==>
            forall i :: 0 <= i < |entries| ==> OneLine(entries[i].path)
  {
    forall i | 0 <= i < |entries| {
      OneLineIff(entries[i].path);
    }
    hide OneLine;
    hide BoundaryFree;
    hide Read;
    hide AsMap;
    hide Serialize;
    assert entries[0].path in AsMap(entries);
    if forall i :: 0 <= i < |entries| ==> BoundaryFree(entries[i].path) {
      ReadBack(entries, maxPathBytes);
    } else if Read(Serialize(entries), maxPathBytes).Entries? {
      ReadPathsAreBoundaryFree(Serialize(entries), maxPathBytes);
      var i :| 0 <= i < |entries| && !BoundaryFree(entries[i].path);
      assert entries[i].path in AsMap(entries);
    }
  }

  lemma ReadBack(entries: seq<Entry>, maxPathBytes: nat)
    requires Writable(entries, maxPathBytes)
    requires forall i :: 0 <= i < |entries| ==> BoundaryFree(entries[i].path)
    ensures ReadLines(SplitLines(Serialize(entries)), maxPathBytes) == Entries(AsMap(entries))
  {
    forall i | 0 <= i < |entries|
      ensures BoundaryFree(Line(entries[i]))
    {
      DigestIsBoundaryFree(entries[i].digest);
    }
    SplitTerminated(Lines(entries));
    ReadWritten(entries, maxPathBytes);
  }

  lemma DigestIsBoundaryFree(digest: Digest)
    ensures BoundaryFree(digest)
  {
    assert forall i :: 0 <= i < |digest| ==> IsHex(digest[i]);
  }

  lemma DigestHasNoNewline(digest: Digest)
    ensures '\n' !in digest
  {
    assert forall i :: 0 <= i < |digest| ==> IsHex(digest[i]);
  }

  lemma SameFirstLine(l1: string, r1: string, l2: string, r2: string)
    requires '\n' !in l1 && '\n' !in l2
    requires l1 + "\n" + r1 == l2 + "\n" + r2
    ensures l1 == l2 && r1 == r2
  {
    var s := l1 + "\n" + r1;
    assert s == l2 + "\n" + r2;
    assert s[|l1|] == '\n' && s[|l2|] == '\n';
    assert forall i :: 0 <= i < |l1| ==> s[i] == l1[i];
    assert forall i :: 0 <= i < |l2| ==> s[i] == l2[i];
    assert l1 == s[..|l1|] && l2 == s[..|l2|];
    assert r1 == s[|l1| + 1..] && r2 == s[|l2| + 1..];
  }

  /** Different entry lists give different text; a path without "\n" is all this needs. */
  lemma {:induction false} SerializeIsInjective(e1: seq<Entry>, e2: seq<Entry>)
    requires forall i :: 0 <= i < |e1| ==> '\n' !in e1[i].path
    requires forall i :: 0 <= i < |e2| ==> '\n' !in e2[i].path
    requires Serialize(e1) == Serialize(e2)
    ensures e1 == e2
  {
    assert e1 != [] ==> |Serialize(e1)| > 0;
    assert e2 != [] ==> |Serialize(e2)| > 0;
    if e1 != [] && e2 != [] {
      assert Lines(e1)[1..] == Lines(e1[1..]) && Lines(e2)[1..] == Lines(e2[1..]);
      DigestHasNoNewline(e1[0].digest);
      DigestHasNoNewline(e2[0].digest);
      SameFirstLine(Line(e1[0]), Serialize(e1[1..]), Line(e2[0]), Serialize(e2[1..]));
      LineFields(e1[0]);
      LineFields(e2[0]);
      SerializeIsInjective(e1[1..], e2[1..]);
      assert e1 == [e1[0]] + e1[1..] && e2 == [e2[0]] + e2[1..];
    }
  }

  /** The entries of a dict in path order. */
  function SortedEntries(m: map<string, Digest>): (r: seq<Entry>)
    ensures |r| == |m| && forall i :: 0 <= i < |r| ==> r[i].path in m && r[i].digest == m[r[i].path]
    ensures forall p :: p in m ==> exists i :: 0 <= i < |r| && r[i].path == p
  {
    var paths := Sorted(m.Keys);
    assert forall i :: 0 <= i < |paths| ==> paths[i] in m.Keys;
    var r := seq(|paths|, i requires 0 <= i < |paths| => Entry(paths[i], m[paths[i]]));
    assert forall p :: p in m ==> p in paths;
    assert forall i :: 0 <= i < |paths| ==> r[i].path == paths[i];
    r
  }

  lemma SortedEntriesDistinct(m: map<string, Digest>)
    ensures Distinct(SortedEntries(m))
  {
    hide Leq;
    SortedAscends(m.Keys);
    var r := SortedEntries(m);
    forall i, j | 0 <= i < j < |r|
      ensures r[i].path != r[j].path
    {
      assert r[i].path == Sorted(m.Keys)[i] && r[j].path == Sorted(m.Keys)[j];
    }
  }

  /** A dict written in path order and read back as a dict is itself. */
  lemma SortedEntriesRepresent(m: map<string, Digest>)
    ensures AsMap(SortedEntries(m)) == m
  {
    hide SortedEntries;
    SortedEntriesDistinct(m);
    var r := SortedEntries(m);
    AsMapValues(r);
    hide AsMap;
    var back := AsMap(r);
    assert back.Keys == m.Keys;
    forall p | p in m
      ensures back[p] == m[p]
    {
      var i :| 0 <= i < |r| && r[i].path == p;
    }
  }

  lemma {:induction false} AsMapValues(entries: seq<Entry>)
    requires Distinct(entries)
    ensures forall i :: 0 <= i < |entries| ==>
              entries[i].path in AsMap(entries) && AsMap(entries)[entries[i].path] == entries[i].digest
  {
    if entries != [] {
      AsMapValues(entries[..|entries| - 1]);
    }
  }

  /** Distinct checksum dicts have distinct aggregated text. */
  lemma AggregateIsInjective(m1: map<string, Digest>, m2: map<string, Digest>)
    requires forall p :: p in m1 || p in m2 ==> '\n' !in p
    requires Serialize(SortedEntries(m1)) == Serialize(SortedEntries(m2))
    ensures m1 == m2
  {
    SerializeIsInjective(SortedEntries(m1), SortedEntries(m2));
    hide SortedEntries;
    hide Serialize;
    SortedEntriesRepresent(m1);
    SortedEntriesRepresent(m2);
  }
}
