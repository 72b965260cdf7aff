/**
Build provenance: parsing the stage-0 entries of the git index, and deciding whether the commit
id stamped into a build may go without the "-dirty" suffix.
*/
module GitProvenance {
  import opened Common

  const NUL: byte := 0
  const TAB: byte := 9
  const LF: byte := 10
  const CR: byte := 13
  const SPACE: byte := 32
  const DASH: byte := 45
  const ZERO: byte := 48
  const UPPER_S: byte := 83

  // ---------------------------------------------------------------- splitting

  function Split(s: Bytes, b: byte): (pieces: seq<Bytes>)
    ensures pieces != []
    ensures forall i :: 0 <= i < |pieces| ==> b !in pieces[i]
    decreases |s|
  {
    var k := Find(s, b);
    if k == |s| then assert s[..k] == s; [s] else [s[..k]] + Split(s[k + 1..], b)
  }

  function Join(pieces: seq<Bytes>, b: byte): Bytes {
    if pieces == [] then [] else if |pieces| == 1 then pieces[0] else pieces[0] + [b] + Join(pieces[1..], b)
  }

  lemma SplitFirst(piece: Bytes, b: byte, rest: Bytes)
    requires b !in piece
    ensures Split(piece + [b] + rest, b) == [piece] + Split(rest, b)
  {
    var s := piece + [b] + rest;
    FindAfter(piece, b, rest);
    assert s[..|piece|] == piece && s[|piece| + 1..] == rest;
  }

  lemma SplitWhole(piece: Bytes, b: byte)
    requires b !in piece
    ensures Split(piece, b) == [piece]
  {
  }

  lemma JoinCons(first: Bytes, others: seq<Bytes>, b: byte)
    requires others != []
    ensures Join([first] + others, b) == first + [b] + Join(others, b)
  {
    assert ([first] + others)[1..] == others;
  }

  lemma CutAt(s: Bytes, k: nat)
    requires k < |s|
    ensures s == s[..k] + [s[k]] + s[k + 1..]
  {
  }

  lemma {:induction false} JoinUndoesSplit(s: Bytes, b: byte)
    ensures Join(Split(s, b), b) == s
    decreases |s|
  {
    var k := Find(s, b);
    if k < |s| {
      var tail := s[k + 1..];
      JoinUndoesSplit(tail, b);
      JoinCons(s[..k], Split(tail, b), b);
      CutAt(s, k);
    }
  }

  /** Three fields, joined and split. */
  lemma JoinThree(x: Bytes, y: Bytes, z: Bytes, b: byte)
    ensures Join([x, y, z], b) == x + [b] + y + [b] + z
  {
    JoinCons(y, [z], b);
    JoinCons(x, [y, z], b);
    assert [x] + [y, z] == [x, y, z] && [y] + [z] == [y, z];
    Regroup(x, y, z, b);
  }

  lemma Regroup(x: Bytes, y: Bytes, z: Bytes, b: byte)
    ensures x + [b] + y + [b] + z == x + [b] + (y + [b] + z)
  {
  }

  lemma SplitTwo(y: Bytes, z: Bytes, b: byte)
    requires b !in y && b !in z
    ensures Split(y + [b] + z, b) == [y, z]
  {
    SplitFirst(y, b, z);
    SplitWhole(z, b);
  }

  lemma SplitThree(x: Bytes, y: Bytes, z: Bytes, b: byte)
    requires b !in x && b !in y && b !in z
    ensures Split(x + [b] + y + [b] + z, b) == [x, y, z]
  {
    Regroup(x, y, z, b);
    SplitTwo(y, z, b);
    SplitFirst(x, b, y + [b] + z);
  }

  // ---------------------------------------------------------------- index entries

  datatype Mode = Regular | Executable | Symlink | Gitlink

  datatype Entry = Entry(mode: Mode, oid: Bytes, path: Bytes)

  function ModeBytes(m: Mode): (b: Bytes)
    ensures |b| == 6
    ensures forall i :: 0 <= i < |b| ==> 48 <= b[i] <= 57
  {
    match m
    case Regular => [49, 48, 48, 54, 52, 52]
    case Executable => [49, 48, 48, 55, 53, 53]
    case Symlink => [49, 50, 48, 48, 48, 48]
    case Gitlink => [49, 54, 48, 48, 48, 48]
  }

  function ParseMode(b: Bytes): (m: Option<Mode>)
    ensures m.Some? ==> ModeBytes(m.value) == b
  {
    if b == ModeBytes(Regular) then Some(Regular)
    else if b == ModeBytes(Executable) then Some(Executable)
    else if b == ModeBytes(Symlink) then Some(Symlink)
    else if b == ModeBytes(Gitlink) then Some(Gitlink)
    else None
  }

  lemma ParseModeOfBytes(m: Mode)
    ensures ParseMode(ModeBytes(m)) == Some(m)
  {
    assert forall n :: ModeBytes(n)[1] == ModeBytes(m)[1] && ModeBytes(n)[3] == ModeBytes(m)[3] ==> n == m;
  }

  predicate IsHex(s: Bytes) {
    forall i :: 0 <= i < |s| ==> IsHexDigit(s[i] as int)
  }

  /** What git can print: a hexadecimal id and a path without NUL; tabs, spaces and newlines are allowed. */
  predicate Printable(e: Entry) {
    IsHex(e.oid) && NUL !in e.path
  }

  function Header(e: Entry): Bytes {
    ModeBytes(e.mode) + [SPACE] + e.oid + [SPACE] + [ZERO]
  }

  function PrintEntry(e: Entry): Bytes {
    Header(e) + [TAB] + e.path
  }

  function Print(entries: seq<Entry>): Bytes {
    if entries == [] then [] else PrintEntry(entries[0]) + [NUL] + Print(entries[1..])
  }

  function ParseEntry(s: Bytes): Option<Entry> {
    var k := Find(s, TAB);
    if k == |s| then None
    else
      var fields := Split(s[..k], SPACE);
      if |fields| != 3 || fields[2] != [ZERO] || !IsHex(fields[1]) then None
      else match ParseMode(fields[0])
        case None => None
        case Some(mode) => Some(Entry(mode, fields[1], s[k + 1..]))
  }

  function ParseEntries(pieces: seq<Bytes>): Option<seq<Entry>> {
    if pieces == [] then Some([])
    else match ParseEntry(pieces[0])
      case None => None
      case Some(e) =>
        match ParseEntries(pieces[1..])
        case None => None
        case Some(more) => Some([e] + more)
  }

  function NonEmpty(pieces: seq<Bytes>): seq<Bytes> {
    if pieces == [] then []
    else (if pieces[0] == [] then [] else [pieces[0]]) + NonEmpty(pieces[1..])
  }

  /** `index_stage_zero_entries`: one bad entry and the whole listing is refused. */
  function Parse(listing: Bytes): Option<seq<Entry>> {
    ParseEntries(NonEmpty(Split(listing, NUL)))
  }

  // ---------------------------------------------------------------- parsing undoes printing

  lemma HeaderIsPlain(e: Entry)
    requires IsHex(e.oid)
    ensures TAB !in Header(e) && NUL !in Header(e)
    ensures SPACE !in ModeBytes(e.mode) && SPACE !in e.oid
  {
  }

  lemma HeaderFields(e: Entry)
    requires IsHex(e.oid)
    ensures Split(Header(e), SPACE) == [ModeBytes(e.mode), e.oid, [ZERO]]
  {
    HeaderIsPlain(e);
    SplitThree(ModeBytes(e.mode), e.oid, [ZERO], SPACE);
  }

  lemma EntryRoundTrip(e: Entry)
    requires IsHex(e.oid)
    ensures ParseEntry(PrintEntry(e)) == Some(e)
  {
    HeaderIsPlain(e);
    HeaderFields(e);
    FindAfter(Header(e), TAB, e.path);
    var s := PrintEntry(e);
    assert s[..|Header(e)|] == Header(e) && s[|Header(e)| + 1..] == e.path;
    ParseModeOfBytes(e.mode);
  }

  lemma Reassemble(s: Bytes, k: nat, fields: seq<Bytes>)
    requires k < |s| && s[k] == TAB && fields == Split(s[..k], SPACE) && |fields| == 3
    ensures s == (fields[0] + [SPACE] + fields[1] + [SPACE] + fields[2]) + [TAB] + s[k + 1..]
  {
    JoinUndoesSplit(s[..k], SPACE);
    assert fields == [fields[0], fields[1], fields[2]];
    JoinThree(fields[0], fields[1], fields[2], SPACE);
    CutAt(s, k);
  }

  /** Parsing an entry gives exactly the entry that prints as it. */
  lemma ParsedIsPrinted(s: Bytes, e: Entry)
    ensures ParseEntry(s) == Some(e) <==> IsHex(e.oid) && s == PrintEntry(e)
  {
    if ParseEntry(s) == Some(e) {
      var k := Find(s, TAB);
      Reassemble(s, k, Split(s[..k], SPACE));
    } else if IsHex(e.oid) {
      EntryRoundTrip(e);
    }
  }

  function PrintedPieces(entries: seq<Entry>): seq<Bytes> {
    if entries == [] then [] else [PrintEntry(entries[0])] + PrintedPieces(entries[1..])
  }

  predicate AllPrintable(entries: seq<Entry>) {
    forall i :: 0 <= i < |entries| ==> Printable(entries[i])
  }

  lemma {:induction false} SplitPrinted(entries: seq<Entry>)
    requires AllPrintable(entries)
    ensures NonEmpty(Split(Print(entries), NUL)) == PrintedPieces(entries)
  {
    if entries == [] {
      SplitWhole([], NUL);
      assert NonEmpty([[]]) == [];
    } else {
      PieceIsPlain(entries[0]);
      SplitPrinted(entries[1..]);
      SplitFirst(PrintEntry(entries[0]), NUL, Print(entries[1..]));
    }
  }

  lemma PieceIsPlain(e: Entry)
    requires IsHex(e.oid)
    ensures PrintEntry(e) != [] && (NUL in PrintEntry(e) <==> NUL in e.path)
  {
    HeaderIsPlain(e);
  }

  lemma {:induction false} ParsedPieces(pieces: seq<Bytes>, entries: seq<Entry>)
    requires forall i :: 0 <= i < |pieces| ==> NUL !in pieces[i]
    ensures ParseEntries(pieces) == Some(entries) <==> AllPrintable(entries) && pieces == PrintedPieces(entries)
  {
    if pieces != [] && entries != [] {
      var e := entries[0];
      ParsedPieces(pieces[1..], entries[1..]);
      ParsedIsPrinted(pieces[0], e);
      assert entries == [e] + entries[1..] && pieces == [pieces[0]] + pieces[1..];
      if IsHex(e.oid) {
        PieceIsPlain(e);
      }
    }
  }

  lemma {:induction false} NonEmptyKeeps(pieces: seq<Bytes>)
    requires forall i :: 0 <= i < |pieces| ==> NUL !in pieces[i]
    ensures forall i :: 0 <= i < |NonEmpty(pieces)| ==> NUL !in NonEmpty(pieces)[i]
  {
    if pieces != [] {
      NonEmptyKeeps(pieces[1..]);
    }
  }

  /** The listing parses to `entries` exactly when its non-empty pieces are those entries, printed. */
  lemma ParseIff(listing: Bytes, entries: seq<Entry>)
    ensures Parse(listing) == Some(entries) <==>
      AllPrintable(entries) && NonEmpty(Split(listing, NUL)) == PrintedPieces(entries)
  {
    NonEmptyKeeps(Split(listing, NUL));
    ParsedPieces(NonEmpty(Split(listing, NUL)), entries);
  }

  /** Parsing undoes printing. */
  lemma RoundTrip(entries: seq<Entry>)
    requires AllPrintable(entries)
    ensures Parse(Print(entries)) == Some(entries)
  {
    SplitPrinted(entries);
    ParseIff(Print(entries), entries);
  }

  // ---------------------------------------------------------------- the dirty suffix

  /** What git answers; `None` is a query that failed. */
  datatype Git = Git(
    root: bool,
    head: Option<Bytes>,
    status: Option<Bytes>,
    flags: Option<Bytes>,
    stage: Option<Bytes>,
    hashObject: Bytes -> Option<Bytes>)

  const UNKNOWN: Bytes := [117, 110, 107, 110, 111, 119, 110]
  const DIRTY: Bytes := [DASH, 100, 105, 114, 116, 121]

  predicate IsEol(b: byte) {
    b == CR || b == LF
  }

  /** `text` without the line ends after it: the only prefix ending in no line end that leaves nothing else. */
  ghost predicate IsTrimmed(text: Bytes, trimmed: Bytes) {
    && trimmed <= text
    && (trimmed != [] ==> !IsEol(trimmed[|trimmed| - 1]))
    && forall i :: |trimmed| <= i < |text| ==> IsEol(text[i])
  }

  method TrimEol(text: Bytes) returns (trimmed: Bytes)
    ensures IsTrimmed(text, trimmed)
  {
    trimmed := text;
    while trimmed != [] && IsEol(trimmed[|trimmed| - 1])
      invariant trimmed <= text
      invariant forall i :: |trimmed| <= i < |text| ==> IsEol(text[i])
    {
      trimmed := trimmed[..|trimmed| - 1];
    }
  }

  /** Git answered with this hexadecimal id and line ends after it. */
  ghost predicate AnswersId(output: Option<Bytes>, id: Bytes) {
    output.Some? && IsTrimmed(output.value, id) && IsHex(id)
  }

  lemma IdIsUnique(output: Option<Bytes>, a: Bytes, b: Bytes)
    requires output.Some? && IsTrimmed(output.value, a) && AnswersId(output, b)
    ensures a == b
  {
    assert a == output.value[..|a|] && b == output.value[..|b|];
  }

  method RawWorktreeOid(git: Git, path: Bytes) returns (oid: Option<Bytes>)
    ensures oid.Some? ==> oid.value != [] && AnswersId(git.hashObject(path), oid.value)
    ensures oid.None? ==> forall id :: AnswersId(git.hashObject(path), id) ==> id == []
  {
    var output := git.hashObject(path);
    if output.None? {
      return None;
    }
    var trimmed := TrimEol(output.value);
    forall id | AnswersId(output, id)
      ensures id == trimmed
    {
      IdIsUnique(output, trimmed, id);
    }
    oid := if trimmed != [] && IsHex(trimmed) then Some(trimmed) else None;
  }

  /** The file in the work tree is the blob the index names; a gitlink never is. */
  ghost predicate Matches(git: Git, e: Entry) {
    e.mode != Gitlink && e.oid != [] && AnswersId(git.hashObject(e.path), e.oid)
  }

  ghost predicate AllMatch(git: Git, entries: seq<Entry>) {
    forall i :: 0 <= i < |entries| ==> Matches(git, entries[i])
  }

  ghost predicate NoId(git: Git, e: Entry) {
    e.mode != Gitlink && forall id :: AnswersId(git.hashObject(e.path), id) ==> id == []
  }

  /** The first file that does not match is one that git could not hash. */
  ghost predicate Unanswered(git: Git, entries: seq<Entry>) {
    exists i :: 0 <= i < |entries| && NoId(git, entries[i]) && AllMatch(git, entries[..i])
  }

  lemma FirstMismatch(git: Git, entries: seq<Entry>, i: nat)
    requires i < |entries| && AllMatch(git, entries[..i]) && !Matches(git, entries[i])
    ensures !AllMatch(git, entries)
    ensures Unanswered(git, entries) <==> NoId(git, entries[i])
  {
    forall j | 0 <= j < i
      ensures Matches(git, entries[j])
    {
      assert entries[..i][j] == entries[j];
    }
    forall j | i < j <= |entries|
      ensures !AllMatch(git, entries[..j])
    {
      assert entries[..j][i] == entries[i];
    }
  }

  /** One turn of the loop below. */
  method CompareEntry(git: Git, e: Entry) returns (same: Option<bool>)
    ensures same == Some(true) <==> Matches(git, e)
    ensures same == None <==> NoId(git, e)
  {
    if e.mode == Gitlink {
      return Some(false);
    }
    var oid := RawWorktreeOid(git, e.path);
    if oid == None {
      return None;
    }
    if Matches(git, e) {
      IdIsUnique(git.hashObject(e.path), oid.value, e.oid);
    }
    same := Some(oid.value == e.oid);
  }

  method RawTrackedWorktreeIsClean(git: Git) returns (clean: Option<bool>)
    ensures clean == Some(true) <==>
      git.stage.Some? && Parse(git.stage.value).Some? && AllMatch(git, Parse(git.stage.value).value)
    ensures clean == None <==>
      git.stage.None? || Parse(git.stage.value).None? || Unanswered(git, Parse(git.stage.value).value)
  {
    if git.stage.None? || Parse(git.stage.value).None? {
      return None;
    }
    clean := CompareAll(git, Parse(git.stage.value).value);
  }

  method CompareAll(git: Git, entries: seq<Entry>) returns (clean: Option<bool>)
    ensures clean == Some(true) <==> AllMatch(git, entries)
    ensures clean == None <==> Unanswered(git, entries)
  {
    for i := 0 to |entries|
      invariant AllMatch(git, entries[..i])
    {
      var same := CompareEntry(git, entries[i]);
      if same != Some(true) {
        FirstMismatch(git, entries, i);
        return same;
      }
      assert entries[..i + 1] == entries[..i] + [entries[i]];
    }
    assert entries[..|entries|] == entries;
    clean := Some(true);
    MatchedIsAnswered(git, entries);
  }

  lemma MatchedIsAnswered(git: Git, entries: seq<Entry>)
    requires AllMatch(git, entries)
    ensures !Unanswered(git, entries)
  {
    forall i | 0 <= i < |entries|
      ensures !NoId(git, entries[i])
    {
      assert Matches(git, entries[i]);
    }
  }

  /** A tag that hides changes from `git status`: assume-unchanged or skip-worktree. */
  predicate Hides(piece: Bytes) {
    piece != [] && (97 <= piece[0] <= 122 || piece[0] == UPPER_S)
  }

  predicate HasHiddenFlags(flags: Bytes) {
    exists piece :: piece in Split(flags, NUL) && Hides(piece)
  }

  /** An entry of `git ls-files -v`: the letter of its status, and the flags that hide changes. */
  datatype FlagEntry = FlagEntry(status: byte, assumeUnchanged: bool, skipWorktree: bool, path: Bytes)

  predicate HasPlainStatus(e: FlagEntry) {
    65 <= e.status <= 90 && e.status != UPPER_S && NUL !in e.path
  }

  /** Git shows `S` for skip-worktree, and the letter in lower case for assume-unchanged. */
  function Tag(e: FlagEntry): byte
    requires HasPlainStatus(e)
  {
    var letter := if e.skipWorktree then UPPER_S else e.status;
    if e.assumeUnchanged then letter + 32 else letter
  }

  function PrintFlag(e: FlagEntry): Bytes
    requires HasPlainStatus(e)
  {
    [Tag(e), SPACE] + e.path
  }

  function PrintFlags(entries: seq<FlagEntry>): Bytes
    requires forall i :: 0 <= i < |entries| ==> HasPlainStatus(entries[i])
  {
    if entries == [] then [] else PrintFlag(entries[0]) + [NUL] + PrintFlags(entries[1..])
  }

  lemma HiddenFirst(piece: Bytes, rest: Bytes)
    requires NUL !in piece
    ensures HasHiddenFlags(piece + [NUL] + rest) <==> Hides(piece) || HasHiddenFlags(rest)
  {
    SplitFirst(piece, NUL, rest);
    assert piece in Split(piece + [NUL] + rest, NUL);
    assert forall p :: p in Split(rest, NUL) ==> p in Split(piece + [NUL] + rest, NUL);
  }

  /** A printed listing has hidden flags exactly when some entry is assume-unchanged or skip-worktree. */
  lemma {:induction false} HiddenFlagsArePrinted(entries: seq<FlagEntry>)
    requires forall i :: 0 <= i < |entries| ==> HasPlainStatus(entries[i])
    ensures HasHiddenFlags(PrintFlags(entries)) <==>
      exists i :: 0 <= i < |entries| && (entries[i].assumeUnchanged || entries[i].skipWorktree)
  {
    if entries == [] {
      SplitWhole([], NUL);
    } else {
      var e, others := entries[0], entries[1..];
      HiddenFlagsArePrinted(others);
      HiddenFirst(PrintFlag(e), PrintFlags(others));
      assert Hides(PrintFlag(e)) <==> e.assumeUnchanged || e.skipWorktree;
      assert forall i :: 0 <= i < |others| ==> others[i] == entries[i + 1];
      assert forall i :: 1 <= i < |entries| ==> entries[i] == others[i - 1];
    }
  }

  method WorkingTreeIsDirty(git: Git) returns (dirty: Option<bool>)
    ensures dirty == Some(false) <==> NothingHidden(git)
  {
    if git.status.None? || git.flags.None? {
      return None;
    }
    var clean := RawTrackedWorktreeIsClean(git);
    if clean.None? {
      return None;
    }
    dirty := Some(git.status.value != [] || HasHiddenFlags(git.flags.value) || !clean.value);
  }

  /** Every query succeeded, status is empty, no entry is hidden or a gitlink, and every file matches the index. */
  ghost predicate NothingHidden(git: Git) {
    && git.status == Some([])
    && git.flags.Some? && !HasHiddenFlags(git.flags.value)
    && git.stage.Some? && Parse(git.stage.value).Some? && AllMatch(git, Parse(git.stage.value).value)
  }

  /** `decorate_commit` */
  function Decorate(commit: Option<Bytes>, dirty: Option<bool>, forceDirty: bool): Bytes {
    var missing := commit.None? || commit.value == [];
    var name := if missing then UNKNOWN else commit.value;
    if forceDirty || missing || dirty != Some(false) then name + DIRTY else name
  }

  lemma DashMeansDirty(commit: Option<Bytes>, dirty: Option<bool>, forceDirty: bool)
    requires commit.Some? ==> commit.value != [] && IsHex(commit.value)
    ensures DASH in Decorate(commit, dirty, forceDirty) <==> forceDirty || commit.None? || dirty != Some(false)
  {
    var name := if commit.None? then UNKNOWN else commit.value;
    assert (name + DIRTY)[|name|] == DASH;
  }

  /**
  `build_commit`: a commit string has no dash, so no "-dirty", exactly when nothing was forced, every
  query succeeded and the work tree is the index; then it is the id git answered.
  */
  method BuildCommit(git: Git, forceDirty: bool) returns (commit: Bytes)
    ensures DASH !in commit <==> Pristine(git, forceDirty)
    ensures Pristine(git, forceDirty) ==> AnswersId(git.head, commit)
    ensures !Pristine(git, forceDirty) ==>
      commit == UNKNOWN + DIRTY || exists id :: NamesHead(git, id) && commit == id + DIRTY
    ensures git.root ==> forall id :: NamesHead(git, id) ==> id <= commit
  {
    if !git.root {
      DashMeansDirty(None, None, true);
      return Decorate(None, None, true);
    }
    var id := None;
    if git.head.Some? {
      var trimmed := TrimEol(git.head.value);
      forall other | NamesHead(git, other)
        ensures other == trimmed
      {
        IdIsUnique(git.head, trimmed, other);
      }
      if 12 <= |trimmed| <= 64 && IsHex(trimmed) {
        assert NamesHead(git, trimmed);
        id := Some(trimmed);
      }
    }
    var dirty := WorkingTreeIsDirty(git);
    DashMeansDirty(id, dirty, forceDirty);
    commit := Decorate(id, dirty, forceDirty);
  }

  ghost predicate Pristine(git: Git, forceDirty: bool) {
    && git.root && !forceDirty && NothingHidden(git)
    && exists id :: NamesHead(git, id)
  }

  ghost predicate NamesHead(git: Git, id: Bytes) {
    AnswersId(git.head, id) && 12 <= |id| <= 64
  }
}
