/** Printing and parsing snapshot names (pkg/types/snapstore.go, pkg/snapstore/snapshot.go). */
module SnapshotName {
  import opened SnapTypes
  import opened Strings

  const FINAL_SUFFIX := ".final"

  // ---------------------------------------------------------------------------
  // Printing
  // ---------------------------------------------------------------------------

  function KindName(kind: Kind): string {
    match kind
    case Full => "Full"
    case Incr => "Incr"
  }

  function TimeAndSuffix(s: Snapshot): string {
    Pad(s.createdOn, 0) + s.compressionSuffix + if s.isFinal then FINAL_SUFFIX else ""
  }

  function Name(s: Snapshot): string {
    KindName(s.kind) + "-" + (Pad(s.startRevision, 8) + "-" + (Pad(s.lastRevision, 8) + "-" + TimeAndSuffix(s)))
  }

  predicate HasSuffix(s: string, suffix: string) {
    |suffix| <= |s| && s[|s| - |suffix|..] == suffix
  }

  class NamedSnapshot {
    var meta: Snapshot
    var snapName: string

    /** NewSnapshot; the creation time is a parameter. */
    constructor (kind: Kind, startRevision: int, lastRevision: int, createdOn: int, compressionSuffix: string,
                 isFinal: bool)
      ensures meta == Snapshot(kind, startRevision, lastRevision, createdOn, compressionSuffix, isFinal, false, None)
      ensures snapName == Name(meta)
    {
      meta := Snapshot(kind, startRevision, lastRevision, createdOn, compressionSuffix, isFinal, false, None);
      snapName := "";
      new;
      GenerateSnapshotName();
    }

    method GenerateSnapshotName()
      modifies `snapName
      ensures snapName == Name(meta)
    {
      snapName := Name(meta);
    }

    /** Marks the snapshot as final or not, and keeps the name in step. */
    method SetFinal(final: bool)
      requires snapName == Name(meta) && Supported(meta.compressionSuffix)
      modifies this
      ensures meta == old(meta).(isFinal := final)
      ensures snapName == Name(meta)
    {
      ghost var before := meta;
      meta := meta.(isFinal := final);
      if final {
        if !HasSuffix(snapName, FINAL_SUFFIX) {
          snapName := snapName + FINAL_SUFFIX;
        }
      } else if HasSuffix(snapName, FINAL_SUFFIX) {
        snapName := snapName[..|snapName| - |FINAL_SUFFIX|];
      }
      FinalName(before);
    }
  }

  /** What the compressor can produce. */
  predicate Supported(suffix: string) {
    suffix == "" || suffix == ".gz" || suffix == ".Z" || suffix == ".zlib"
  }

  lemma FinalName(s: Snapshot)
    requires Supported(s.compressionSuffix)
    ensures Name(s.(isFinal := true)) == Name(s.(isFinal := false)) + FINAL_SUFFIX
    ensures HasSuffix(Name(s.(isFinal := true)), FINAL_SUFFIX)
    ensures !HasSuffix(Name(s.(isFinal := false)), FINAL_SUFFIX)
    ensures Name(s.(isFinal := true))[..|Name(s.(isFinal := true))| - |FINAL_SUFFIX|] == Name(s.(isFinal := false))
  {
    hide Pad;
    var plain, final := Name(s.(isFinal := false)), Name(s.(isFinal := true));
    assert final == plain + FINAL_SUFFIX;
    var last := plain[|plain| - 1];
    assert last == 'z' || last == 'Z' || last == 'b' || IsDigit(last) by { LastCharacter(s.(isFinal := false)); }
    assert FINAL_SUFFIX[5] == 'l';
    assert |plain| >= 6 && plain[|plain| - 6..][5] == last;
  }

  lemma PadEndsInDigit(n: int, width: nat)
    ensures var p := Pad(n, width); p != "" && IsDigit(p[|p| - 1])
  {
  }

  lemma LastCharacter(s: Snapshot)
    requires Supported(s.compressionSuffix) && !s.isFinal
    ensures var name := Name(s);
            name != "" && (var c := name[|name| - 1]; c == 'z' || c == 'Z' || c == 'b' || IsDigit(c))
  {
    hide Pad;
    PadEndsInDigit(s.createdOn, 0);
    var time := Pad(s.createdOn, 0);
    var rest := TimeAndSuffix(s);
    var suffix := s.compressionSuffix;
    assert rest[|rest| - 1] == if suffix == "" then time[|time| - 1] else suffix[|suffix| - 1];
  }

  // ---------------------------------------------------------------------------
  // Parsing
  // ---------------------------------------------------------------------------

  datatype Reason = NoVersion | BadName | UnknownKind | BadStart | BadLast | LastBeforeStart | BadTime

  datatype Result<T> = Ok(value: T) | Error(reason: Reason)

  datatype Parsed = Parsed(snapshot: Snapshot, snapName: string, snapDir: string, prefix: string)

  function ParseSnapshot(path: string): Result<Parsed> {
    var v1, v2 := LastIndex(path, "v1/"), LastIndex(path, "v2/");
    var lastIndex := if v1 >= 0 then v1 else v2;
    if lastIndex < 0 then Error(NoVersion)
    else
      var prefix := path[..lastIndex + 3];
      var tok := Split(path[lastIndex + 3..], '/');
      if |tok| > 3 then Error(BadName)
      else
        var isChunk := if v1 >= 0 then |tok| == 3 else |tok| == 2;
        var snapDir := if v1 >= 0 then tok[0] else "";
        var snapName := Join(if v1 >= 0 then tok[1..] else tok);
        match ParseName(snapName, isChunk)
        case Error(reason) => Error(reason)
        case Ok(snapshot) => Ok(Parsed(snapshot, snapName, snapDir, prefix))
  }

  function ParseKind(s: string): Option<Kind> {
    if s == "Full" then Some(Full) else if s == "Incr" then Some(Incr) else None
  }

  function ParseName(snapName: string, isChunk: bool): Result<Snapshot> {
    var tokens := Split(snapName, '-');
    if |tokens| != 4 then Error(BadName)
    else
      var kind := ParseKind(tokens[0]);
      var start, last := ParseInt(tokens[1]), ParseInt(tokens[2]);
      var timeWithSuffix := Split(Split(tokens[3], '/')[0], '.');
      var (compressionSuffix, isFinal) := ParseSuffix(timeWithSuffix);
      var time := ParseInt(timeWithSuffix[0]);
      if kind.None? then Error(UnknownKind)
      else if start.None? then Error(BadStart)
      else if last.None? then Error(BadLast)
      else if start.value > last.value then Error(LastBeforeStart)
      else if time.None? then Error(BadTime)
      else Ok(Snapshot(kind.value, start.value, last.value, time.value, compressionSuffix, isFinal, isChunk, None))
  }

  function ParseSuffix(parts: seq<string>): (string, bool)
    requires parts != []
  {
    if |parts| >= 2 then
      (if "." + parts[1] != FINAL_SUFFIX then "." + parts[1] else "",
       "." + parts[|parts| - 1] == FINAL_SUFFIX)
    else ("", false)
  }

  // ---------------------------------------------------------------------------
  // Round trip
  // ---------------------------------------------------------------------------

  /** Metadata as the snapshotter produces it. */
  predicate Printable(s: Snapshot) {
    && 0 <= s.startRevision <= s.lastRevision <= MAX_INT64
    && 0 <= s.createdOn <= MAX_INT64
    && Supported(s.compressionSuffix)
    && !s.isChunk && s.immutabilityExpiryTime.None?
  }

  /** The tail of a path below a snapshot: nothing, or the number of a chunk. */
  function ChunkTail(chunk: Option<nat>): string {
    match chunk
    case None => ""
    case Some(number) => "/" + Pad(number, 10)
  }

  lemma PadHasOnly(n: int, width: nat, c: char)
    requires n >= 0 && !IsDigit(c)
    ensures c !in Pad(n, width) && Pad(n, width) != ""
  {
    DigitsOnly(PadNat(n, width), c);
  }

  lemma TimeLacks(s: Snapshot, c: char)
    requires Printable(s) && (c == '/' || c == 'v' || c == '-')
    ensures c !in TimeAndSuffix(s)
  {
    hide Pad;
    PadHasOnly(s.createdOn, 0, c);
    assert c !in s.compressionSuffix;
  }

  lemma NameLacks(s: Snapshot, c: char)
    requires Printable(s) && (c == '/' || c == 'v')
    ensures c !in Name(s)
  {
    hide Pad, TimeAndSuffix;
    PadHasOnly(s.startRevision, 8, c);
    PadHasOnly(s.lastRevision, 8, c);
    TimeLacks(s, c);
    assert c !in KindName(s.kind);
  }

  /** A name has no slash and no 'v', and only the three dashes that separate its parts. */
  lemma NameCharacters(s: Snapshot)
    requires Printable(s)
    ensures '/' !in Name(s) && 'v' !in Name(s) && '-' !in TimeAndSuffix(s) && '/' !in TimeAndSuffix(s)
  {
    hide Name, TimeAndSuffix;
    NameLacks(s, '/');
    NameLacks(s, 'v');
    TimeLacks(s, '-');
    TimeLacks(s, '/');
  }

  lemma TailCharacters(chunk: Option<nat>)
    ensures 'v' !in ChunkTail(chunk) && '-' !in ChunkTail(chunk)
  {
    hide Pad;
    if chunk.Some? {
      PadHasOnly(chunk.value, 10, 'v');
      PadHasOnly(chunk.value, 10, '-');
    }
  }

  lemma SplitDashes(s: Snapshot, tail: string)
    requires Printable(s) && '-' !in tail
    ensures Split(Name(s) + tail, '-') ==
            [KindName(s.kind), Pad(s.startRevision, 8), Pad(s.lastRevision, 8), TimeAndSuffix(s) + tail]
  {
    hide Pad, Split, TimeAndSuffix;
    NameCharacters(s);
    PadHasOnly(s.startRevision, 8, '-');
    PadHasOnly(s.lastRevision, 8, '-');
    var c := TimeAndSuffix(s) + tail;
    var b := Pad(s.lastRevision, 8) + ['-'] + c;
    var a := Pad(s.startRevision, 8) + ['-'] + b;
    assert Name(s) + tail == KindName(s.kind) + ['-'] + a;
    SplitFirst(KindName(s.kind), '-', a);
    SplitFirst(Pad(s.startRevision, 8), '-', b);
    SplitFirst(Pad(s.lastRevision, 8), '-', c);
    SplitNone(c, '-');
  }

  /** Taking the time and the suffixes apart. */
  lemma SplitDots(s: Snapshot)
    requires Printable(s)
    ensures var parts := Split(TimeAndSuffix(s), '.');
            parts[0] == Pad(s.createdOn, 0) && ParseSuffix(parts) == (s.compressionSuffix, s.isFinal)
  {
    hide Pad, Split, ParseSuffix;
    var time := Pad(s.createdOn, 0);
    PadHasOnly(s.createdOn, 0, '.');
    if s.compressionSuffix == "" {
      SplitUncompressed(time, s.isFinal);
      assert TimeAndSuffix(s) == time + if s.isFinal then FINAL_SUFFIX else "";
    } else {
      var word := s.compressionSuffix[1..];
      assert s.compressionSuffix == "." + word && '.' !in word && word != "final";
      SplitCompressed(time, word, s.isFinal);
    }
  }

  lemma SplitUncompressed(time: string, final: bool)
    requires '.' !in time
    ensures var parts := Split(time + if final then FINAL_SUFFIX else "", '.');
            parts[0] == time && ParseSuffix(parts) == ("", final)
  {
    hide Split;
    if final {
      assert time + FINAL_SUFFIX == time + ['.'] + "final";
      SplitFirst(time, '.', "final");
      SplitNone("final", '.');
    } else {
      assert time + "" == time;
      SplitNone(time, '.');
    }
  }

  lemma SplitCompressed(time: string, word: string, final: bool)
    requires '.' !in time && '.' !in word && word != "final"
    ensures var parts := Split(time + ("." + word) + if final then FINAL_SUFFIX else "", '.');
            parts[0] == time && ParseSuffix(parts) == ("." + word, final)
  {
    hide Split, ParseSuffix;
    if final {
      var b := word + ['.'] + "final";
      assert time + ("." + word) + FINAL_SUFFIX == time + ['.'] + b by { SameDots(time, word); }
      SplitFirst(time, '.', b);
      SplitFirst(word, '.', "final");
      SplitNone("final", '.');
      assert Split(time + ['.'] + b, '.') == [time, word, "final"];
    } else {
      assert time + ("." + word) + "" == time + ['.'] + word;
      SplitFirst(time, '.', word);
      SplitNone(word, '.');
      assert Split(time + ['.'] + word, '.') == [time, word];
    }
    SuffixOf(time, word);
  }

  lemma SameDots(time: string, word: string)
    ensures time + ("." + word) + FINAL_SUFFIX == time + ['.'] + (word + ['.'] + "final")
  {
    assert FINAL_SUFFIX == ['.'] + "final";
  }

  lemma SuffixOf(time: string, word: string)
    requires word != "final"
    ensures ParseSuffix([time, word]) == ("." + word, false)
    ensures ParseSuffix([time, word, "final"]) == ("." + word, true)
  {
    assert ("." + word)[1..] == word && FINAL_SUFFIX[1..] == "final";
    assert "." + "final" == FINAL_SUFFIX;
  }

  lemma ParseNameInverts(s: Snapshot, chunk: Option<nat>)
    requires Printable(s)
    ensures ParseName(Name(s) + ChunkTail(chunk), chunk.Some?) == Ok(s.(isChunk := chunk.Some?))
  {
    hide Pad, Split, TimeAndSuffix, ParseInt, ParseSuffix, Name;
    TailCharacters(chunk);
    SplitDashes(s, ChunkTail(chunk));
    NameCharacters(s);
    if chunk.Some? {
      assert TimeAndSuffix(s) + ChunkTail(chunk) == TimeAndSuffix(s) + ['/'] + Pad(chunk.value, 10);
      SplitFirst(TimeAndSuffix(s), '/', Pad(chunk.value, 10));
    } else {
      assert TimeAndSuffix(s) + ChunkTail(chunk) == TimeAndSuffix(s);
      SplitNone(TimeAndSuffix(s), '/');
    }
    SplitDots(s);
    ParsePadded(s.startRevision, 8);
    ParsePadded(s.lastRevision, 8);
    ParsePadded(s.createdOn, 0);
  }

  /** Without a "v1/" in the prefix, the version found is the "v2/" before the name. */
  lemma VersionFound(prefix: string, rest: string)
    requires LastIndex(prefix, "v1/") < 0 && 'v' !in rest
    ensures LastIndex(prefix + "v2/" + rest, "v1/") < 0
    ensures LastIndex(prefix + "v2/" + rest, "v2/") == |prefix|
  {
    hide LastIndex, OccursAt;
    var path := prefix + "v2/" + rest;
    OccursThree(path, "v2/", |prefix|);
    forall k: nat | OccursAt(path, "v1/", k) ensures OccursAt(prefix, "v1/", k) {
      OccursThree(path, "v1/", k);
      OccursThree(prefix, "v1/", k);
    }
    forall k: nat | OccursAt(path, "v2/", k) ensures k <= |prefix| {
      OccursThree(path, "v2/", k);
    }
    LastIndexFacts(path, "v1/");
    LastIndexFacts(path, "v2/");
    LastIndexFacts(prefix, "v1/");
  }

  lemma OccursThree(s: string, pattern: string, k: nat)
    requires |pattern| == 3
    ensures OccursAt(s, pattern, k) <==>
            k + 3 <= |s| && s[k] == pattern[0] && s[k + 1] == pattern[1] && s[k + 2] == pattern[2]
  {
    if k + 3 <= |s| {
      var part := s[k..k + 3];
      assert part[0] == s[k] && part[1] == s[k + 1] && part[2] == s[k + 2];
    }
  }

  lemma LastIndexFacts(s: string, pattern: string)
    ensures var i := LastIndex(s, pattern);
            (i >= 0 ==> OccursAt(s, pattern, i)) && forall k: nat :: OccursAt(s, pattern, k) ==> k <= i
  {
  }

  /** The elements of a path below the version. */
  lemma PathElements(s: Snapshot, chunk: Option<nat>)
    requires Printable(s)
    ensures var rest := Name(s) + ChunkTail(chunk);
            |Split(rest, '/')| == (if chunk.Some? then 2 else 1) && Join(Split(rest, '/')) == rest
  {
    hide Pad, Split, Join, Name;
    var rest := Name(s) + ChunkTail(chunk);
    NameCharacters(s);
    PlainName(s);
    if chunk.Some? {
      var number := Pad(chunk.value, 10);
      PadHasOnly(chunk.value, 10, '/');
      PadHasOnly(chunk.value, 10, '.');
      assert rest == Name(s) + ['/'] + number;
      SplitFirst(Name(s), '/', number);
      SplitNone(number, '/');
      assert Split(rest, '/') == [Name(s), number];
      JoinTwo(Name(s), number);
    } else {
      assert rest == Name(s);
      SplitNone(Name(s), '/');
      JoinOne(Name(s));
    }
  }

  /** Parsing the path of a snapshot, or of one of its chunks, gives back its metadata. */
  lemma NameRoundTrip(prefix: string, s: Snapshot, chunk: Option<nat>)
    requires Printable(s) && LastIndex(prefix, "v1/") < 0
    ensures ParseSnapshot(prefix + "v2/" + (Name(s) + ChunkTail(chunk)))
         == Ok(Parsed(s.(isChunk := chunk.Some?), Name(s) + ChunkTail(chunk), "", prefix + "v2/"))
  {
    hide Split, Name, ParseName, LastIndex, Join, ChunkTail;
    var rest := Name(s) + ChunkTail(chunk);
    var path := prefix + "v2/" + rest;
    NameCharacters(s);
    TailCharacters(chunk);
    VersionFound(prefix, rest);
    assert path[..|prefix| + 3] == prefix + "v2/" && path[|prefix| + 3..] == rest;
    PathElements(s, chunk);
    ParseNameInverts(s, chunk);
  }

  lemma ParseNameChunk(snapName: string, isChunk: bool)
    ensures ParseName(snapName, isChunk).Ok? ==> ParseName(snapName, isChunk).value.isChunk == isChunk
  {
  }

  /** With a "v1/" in the prefix, its last one is the version found. */
  lemma OldVersionFound(prefix: string, rest: string)
    requires LastIndex(prefix, "v1/") >= 0 && 'v' !in rest
    ensures LastIndex(prefix + "v2/" + rest, "v1/") == LastIndex(prefix, "v1/") <= |prefix| - 3
  {
    hide LastIndex, OccursAt;
    var path := prefix + "v2/" + rest;
    forall k: nat ensures OccursAt(path, "v1/", k) <==> OccursAt(prefix, "v1/", k) {
      OccursThree(path, "v1/", k);
      OccursThree(prefix, "v1/", k);
    }
    LastIndexFacts(path, "v1/");
    LastIndexFacts(prefix, "v1/");
    OccursThree(prefix, "v1/", LastIndex(prefix, "v1/"));
  }

  /** A path with a "v1/" in its prefix is read in the old format: what follows it up to the
      "v2/" becomes the directory. That goes well as long as it is one path element. */
  lemma OldVersionInPrefix(prefix: string, s: Snapshot, chunk: Option<nat>)
    requires Printable(s) && LastIndex(prefix, "v1/") >= 0
    ensures var rest := Name(s) + ChunkTail(chunk);
            var dir := prefix[LastIndex(prefix, "v1/") + 3..];
            var r := ParseSnapshot(prefix + "v2/" + rest);
            if '/' !in dir
            then r == Ok(Parsed(s.(isChunk := chunk.Some?), rest, dir + "v2", prefix[..LastIndex(prefix, "v1/") + 3]))
            else r.Error? || r.value.snapshot.isChunk != chunk.Some?
  {
    hide LastIndex, Split, Join, ParseName, OccursAt, Name, ChunkTail;
    var rest := Name(s) + ChunkTail(chunk);
    var path := prefix + "v2/" + rest;
    NameCharacters(s);
    TailCharacters(chunk);
    OldVersionFound(prefix, rest);
    var i := LastIndex(prefix, "v1/") + 3;
    var dir := prefix[i..];
    assert path[..i] == prefix[..i] && path[i..] == (dir + "v2") + ['/'] + rest;
    SplitConcat(dir + "v2", '/', rest);
    PathElements(s, chunk);
    var tok := Split(path[i..], '/');
    if '/' !in dir {
      assert '/' !in dir + "v2";
      SplitNone(dir + "v2", '/');
      assert tok[0] == dir + "v2" && tok[1..] == Split(rest, '/');
      ParseNameInverts(s, chunk);
    } else {
      SplitCount(dir + "v2", '/');
      assert |tok| >= if chunk.Some? then 4 else 3;
      ParseNameChunk(Join(tok[1..]), |tok| == 3);
    }
  }

  /** The metadata comes back if and only if the prefix has no "v1/", or no slash after its
      last one. */
  lemma MetadataRoundTrip(prefix: string, s: Snapshot, chunk: Option<nat>)
    requires Printable(s)
    ensures var r := ParseSnapshot(prefix + "v2/" + (Name(s) + ChunkTail(chunk)));
            var v1 := LastIndex(prefix, "v1/");
            (r.Ok? && r.value.snapshot == s.(isChunk := chunk.Some?)) <==> (v1 < 0 || '/' !in prefix[v1 + 3..])
  {
    hide LastIndex, ParseSnapshot, Name, ChunkTail;
    if LastIndex(prefix, "v1/") < 0 {
      NameRoundTrip(prefix, s, chunk);
    } else {
      OldVersionInPrefix(prefix, s, chunk);
    }
  }

  /** Only names of this form are accepted: a kind, two revisions in order and the rest. */
  lemma ParseSound(snapName: string, isChunk: bool) returns (start: string, last: string, rest: string)
    requires ParseName(snapName, isChunk).Ok?
    ensures var s := ParseName(snapName, isChunk).value;
            && snapName == (if s.kind.Full? then "Full" else "Incr") + ['-'] + (start + ['-'] + (last + ['-'] + rest))
            && '-' !in start && '-' !in last && '-' !in rest
            && ParseInt(start) == Some(s.startRevision) && ParseInt(last) == Some(s.lastRevision)
            && s.startRevision <= s.lastRevision
            && s.isChunk == isChunk && s.immutabilityExpiryTime.None?
  {
    var tokens := Split(snapName, '-');
    ParsedFields(snapName, isChunk);
    hide Split, ParseInt, ParseName;
    SplitFour(snapName, '-');
    start, last, rest := tokens[1], tokens[2], tokens[3];
  }

  /** And only paths with a version, at most two elements below the directory or the prefix. */
  lemma PathSound(path: string)
    requires ParseSnapshot(path).Ok?
    ensures var p := ParseSnapshot(path).value;
            && p.prefix <= path && (HasSuffix(p.prefix, "v1/") || HasSuffix(p.prefix, "v2/"))
            && ParseName(p.snapName, p.snapshot.isChunk) == Ok(p.snapshot)
            && var elements := |Split(path[|p.prefix|..], '/')|;
               && elements <= 3
               && (p.snapshot.isChunk <==> elements == if HasSuffix(p.prefix, "v1/") then 3 else 2)
  {
    hide ParseName, Split, Join, LastIndex;
    var v1, v2 := LastIndex(path, "v1/"), LastIndex(path, "v2/");
    LastIndexFacts(path, "v1/");
    LastIndexFacts(path, "v2/");
    var i := if v1 >= 0 then v1 else v2;
    var prefix := path[..i + 3];
    assert path[i..i + 3] == prefix[|prefix| - 3..];
    var tok := Split(path[i + 3..], '/');
    ParseNameChunk(Join(if v1 >= 0 then tok[1..] else tok), if v1 >= 0 then |tok| == 3 else |tok| == 2);
  }

  lemma ParsedFields(snapName: string, isChunk: bool)
    requires ParseName(snapName, isChunk).Ok?
    ensures var s, tokens := ParseName(snapName, isChunk).value, Split(snapName, '-');
            && |tokens| == 4 && tokens[0] == (if s.kind.Full? then "Full" else "Incr")
            && ParseInt(tokens[1]) == Some(s.startRevision) && ParseInt(tokens[2]) == Some(s.lastRevision)
            && s.startRevision <= s.lastRevision && s.isChunk == isChunk && s.immutabilityExpiryTime.None?
  {
    hide Split, ParseInt, ParseSuffix;
  }

  /** Where the metadata are in a name, as long as the revisions have at most eight digits. */
  lemma NameLayout(s: Snapshot)
    requires Printable(s) && s.lastRevision < 100_000_000
    ensures var name := Name(s);
            && |name| > 23
            && name[..5] == (if s.kind.Full? then "Full-" else "Incr-")
            && ParseInt(name[5..13]) == Some(s.startRevision) && name[13] == '-'
            && ParseInt(name[14..22]) == Some(s.lastRevision) && name[22] == '-'
            && name[23..] == Digits(s.createdOn) + s.compressionSuffix + (if s.isFinal then ".final" else "")
  {
    hide Pad, ParseInt, Digits;
    assert TenTo(8) == 100_000_000;
    hide TenTo;
    PadWidth(s.startRevision, 8);
    PadWidth(s.lastRevision, 8);
    ParsePadded(s.startRevision, 8);
    ParsePadded(s.lastRevision, 8);
    PadPlain(s.createdOn);
    var name, kind := Name(s), KindName(s.kind);
    var a, b, rest := Pad(s.startRevision, 8), Pad(s.lastRevision, 8), TimeAndSuffix(s);
    assert name == kind + ['-'] + a + ['-'] + b + ['-'] + rest && |kind| == 4;
    Fields(kind, a, b, rest);
  }

  /** The number of a chunk comes after a slash, in ten digits. */
  lemma ChunkLayout(number: nat)
    requires number < 10_000_000_000
    ensures var tail := ChunkTail(Some(number));
            |tail| == 11 && tail[0] == '/' && ParseInt(tail[1..]) == Some(number)
  {
    hide Pad, ParseInt;
    assert TenTo(10) == 10_000_000_000;
    PadWidth(number, 10);
    ParsePadded(number, 10);
    assert ChunkTail(Some(number))[1..] == Pad(number, 10);
  }

  lemma Fields(kind: string, a: string, b: string, rest: string)
    requires |kind| == 4 && |a| == |b| == 8
    ensures var name := kind + ['-'] + a + ['-'] + b + ['-'] + rest;
            && name[..5] == kind + ['-'] && name[5..13] == a && name[13] == '-' && name[14..22] == b && name[22] == '-'
            && name[23..] == rest
  {
  }

  lemma PadPlain(n: nat)
    ensures Pad(n, 0) == Digits(n) && Digits(n) != ""
  {
  }

  lemma PlainName(s: Snapshot)
    ensures Plain(Name(s))
  {
  }

  /** So different metadata have different names. */
  lemma NameIsInjective(a: Snapshot, b: Snapshot)
    requires Printable(a) && Printable(b) && Name(a) == Name(b)
    ensures a == b
  {
    hide Name, ParseName;
    ParseNameInverts(a, None);
    ParseNameInverts(b, None);
  }
}
