/** Commands left as files in a home's directory, and claimed by deleting them
  * (worker/src/command-files.ts). */
module CommandFiles {
  import opened Text
  import Sorting

  datatype FileCommand = FileCommand(id: string, kind: string, at: Option<int>)

  /** What a file holds: text that is not JSON, or JSON whose fields may be missing or of the
    * wrong type. */
  datatype Content = Unparsable | Json(id: Option<string>, kind: Option<string>, at: Option<int>)

  function Written(cmd: FileCommand): Content {
    Json(Some(cmd.id), Some(cmd.kind), cmd.at)
  }

  function JsonName(id: string): string {
    id + ".json"
  }

  function TempName(id: string): string {
    "." + id + ".tmp"
  }

  predicate IsPending(name: string) {
    EndsWith(name, ".json") && !EndsWith(name, ".done.json")
  }

  function AtOrZero(c: FileCommand): int {
    if c.at.Some? then c.at.value else 0
  }

  function Older(a: FileCommand, b: FileCommand): bool {
    AtOrZero(a) <= AtOrZero(b)
  }

  // ── what a claim does ──────────────────────────────────────────────────────

  type Files = map<string, Content>

  predicate IsCommand(c: Content) {
    c.Json? && c.id.Some? && c.kind.Some?
  }

  function CommandOf(c: Content): FileCommand
    requires IsCommand(c)
  {
    FileCommand(c.id.value, c.kind.value, c.at)
  }

  function PendingNames(listing: seq<string>): seq<string> {
    if listing == [] then [] else
      PendingNames(listing[..|listing| - 1])
      + if IsPending(listing[|listing| - 1]) then [listing[|listing| - 1]] else []
  }

  /** The commands the listed files hold, in the order of the listing. */
  function ParsedFrom(files: Files, names: seq<string>): seq<FileCommand> {
    if names == [] then [] else
      var name := names[|names| - 1];
      ParsedFrom(files, names[..|names| - 1])
      + if name in files && IsCommand(files[name]) then [CommandOf(files[name])] else []
  }

  /** The listed files that cannot be parsed are removed. */
  function Swept(files: Files, names: seq<string>): Files {
    map n | n in files && !(n in names && files[n].Unparsable?) :: files[n]
  }

  datatype Claim = Claim(taken: Option<FileCommand>, files: Files)

  /** The first command whose own file can be deleted. */
  function FirstTaken(queue: seq<FileCommand>, files: Files): Claim {
    if queue == [] then Claim(None, files)
    else if JsonName(queue[0].id) in files then Claim(Some(queue[0]), files - {JsonName(queue[0].id)})
    else FirstTaken(queue[1..], files)
  }

  function ClaimOf(files: Files, listing: seq<string>): Claim {
    var names := PendingNames(listing);
    FirstTaken(Sorting.SortBy(ParsedFrom(files, names), Older), Swept(files, names))
  }

  // ── the directory ──────────────────────────────────────────────────────────

  class CommandDir {
    var files: Files

    /** Written under a temporary name and renamed, so no reader sees half a command. */
    method WriteCommand(cmd: FileCommand)
      modifies this
      ensures files == (old(files) - {TempName(cmd.id)})[JsonName(cmd.id) := Written(cmd)]
    {
      var tmp := TempName(cmd.id);
      files := files[tmp := Written(cmd)];
      files := (files - {tmp})[JsonName(cmd.id) := files[tmp]];
    }

    method Unlink(name: string) returns (ok: bool)
      modifies this
      ensures ok == (name in old(files))
      ensures files == old(files) - {name}
    {
      ok := name in files;
      files := files - {name};
    }

    /** Read the listed files, removing those nothing will ever be able to run. */
    method ReadAll(names: seq<string>) returns (parsed: seq<FileCommand>)
      requires Sorting.Distinct(names)
      modifies this
      ensures parsed == ParsedFrom(old(files), names)
      ensures files == Swept(old(files), names)
    {
      parsed := [];
      ghost var before := files;
      for i := 0 to |names|
        invariant parsed == ParsedFrom(before, names[..i])
        invariant files == Swept(before, names[..i])
      {
        var name := names[i];
        assert names[..i + 1][..i] == names[..i];
        assert names[..i + 1] == names[..i] + [name];
        assert name !in names[..i];
        if name !in files { continue; }
        var content := files[name];
        if content.Unparsable? {
          var gone := Unlink(name);
        } else if IsCommand(content) {
          parsed := parsed + [CommandOf(content)];
        }
      }
      assert names[..|names|] == names;
    }

    /** Take the oldest pending command. `listing` is the directory's names, in whatever
      * order the file system gives them. */
    method ClaimCommandFile(listing: seq<string>) returns (taken: Option<FileCommand>)
      requires Sorting.Distinct(listing)
      modifies this
      ensures Claim(taken, files) == ClaimOf(old(files), listing)
    {
      PendingKeepsDistinct(listing);
      var names := PendingNames(listing);
      var parsed := ReadAll(names);
      var queue := Sorting.SortBy(parsed, Older);
      ghost var swept := files;
      var i := 0;
      while i < |queue|
        invariant 0 <= i <= |queue| && files == swept
        invariant FirstTaken(queue, swept) == FirstTaken(queue[i..], swept)
      {
        var cmd := queue[i];
        assert queue[i..][1..] == queue[i + 1..];
        var ok := Unlink(JsonName(cmd.id));
        if ok { return Some(cmd); }
        assert swept - {JsonName(cmd.id)} == swept;
        i := i + 1;
      }
      taken := None;
    }
  }

  lemma {:induction false} PendingKeepsDistinct(listing: seq<string>)
    requires Sorting.Distinct(listing)
    ensures Sorting.Distinct(PendingNames(listing))
    ensures forall n :: n in PendingNames(listing) <==> n in listing && IsPending(n)
  {
    if listing != [] {
      var m := |listing| - 1;
      assert listing == listing[..m] + [listing[m]];
      PendingKeepsDistinct(listing[..m]);
    }
  }

  // ── what a claim means ─────────────────────────────────────────────────────

  /** Every pending file that parses as a command is named after it. */
  ghost predicate WellNamed(files: Files) {
    forall n | n in files && IsPending(n) && IsCommand(files[n]) :: n == JsonName(files[n].id.value)
  }

  /** A command waiting to be claimed. */
  ghost predicate Waiting(files: Files, c: FileCommand) {
    && JsonName(c.id) in files && IsPending(JsonName(c.id))
    && files[JsonName(c.id)] == Written(c)
  }

  lemma {:induction false} ParsedAreWaiting(files: Files, names: seq<string>)
    requires WellNamed(files) && forall n | n in names :: n in files && IsPending(n)
    ensures forall c :: c in ParsedFrom(files, names) <==> Waiting(files, c) && JsonName(c.id) in names
  {
    if names != [] {
      var m := |names| - 1;
      assert names == names[..m] + [names[m]];
      ParsedAreWaiting(files, names[..m]);
      forall c
        ensures c in ParsedFrom(files, names) <==> Waiting(files, c) && JsonName(c.id) in names
      {
        if Waiting(files, c) && JsonName(c.id) == names[m] {
          assert CommandOf(files[names[m]]) == c;
        }
      }
    }
  }

  lemma OlderIsTotal()
    ensures Sorting.TotalOrder(Older)
  {
  }

  /** The queue holds the waiting commands, oldest first. */
  lemma QueueIsTheWaiting(files: Files, listing: seq<string>) returns (queue: seq<FileCommand>)
    requires WellNamed(files) && Sorting.Distinct(listing) && forall n :: n in listing <==> n in files
    ensures queue == Sorting.SortBy(ParsedFrom(files, PendingNames(listing)), Older)
    ensures forall c :: c in queue <==> Waiting(files, c)
    ensures queue != [] ==> Waiting(files, queue[0]) && forall c | Waiting(files, c) :: Older(queue[0], c)
  {
    var names := PendingNames(listing);
    PendingKeepsDistinct(listing);
    ParsedAreWaiting(files, names);
    var parsed := ParsedFrom(files, names);
    queue := Sorting.SortBy(parsed, Older);
    OlderIsTotal();
    Sorting.SortBySorts(parsed, Older);
    if parsed != [] {
      Sorting.HeadIsLeast(parsed, Older);
    }
  }

  lemma SweepingKeepsTheWaiting(files: Files, names: seq<string>, c: FileCommand)
    ensures Waiting(Swept(files, names), c) <==> Waiting(files, c)
  {
  }

  /** Names end in the same five characters, so they differ only as the ids do. */
  lemma NamesAreInjective(a: string, b: string)
    requires JsonName(a) == JsonName(b)
    ensures a == b
  {
    assert a == JsonName(a)[..|JsonName(a)| - 5];
  }

  /** The command's own time; one that names none is as old as can be. */
  function WrittenAt(c: FileCommand): int {
    match c.at
    case Some(at) => at
    case None => 0
  }

  lemma {:induction false} PendingAreTheNamed(listing: seq<string>, n: string)
    ensures n in PendingNames(listing) <==> n in listing && EndsWith(n, ".json") && !EndsWith(n, ".done.json")
  {
    if listing != [] {
      PendingAreTheNamed(listing[..|listing| - 1], n);
      assert listing == listing[..|listing| - 1] + [listing[|listing| - 1]];
    }
  }

  /** With nobody else at the directory, a claim takes a waiting command no other waiting
    * command is older than, deletes its file and the unreadable ones and nothing else, and
    * comes back empty only when nothing is waiting. */
  lemma ClaimTakesTheOldest(files: Files, listing: seq<string>)
    requires WellNamed(files) && Sorting.Distinct(listing) && forall n :: n in listing <==> n in files
    ensures var claim := ClaimOf(files, listing);
            && (claim.taken.None? <==> forall c :: !Waiting(files, c))
            && (claim.taken.Some? ==>
                  && Waiting(files, claim.taken.value)
                  && (forall c | Waiting(files, c) :: WrittenAt(claim.taken.value) <= WrittenAt(c)))
            && (forall n | n in claim.files :: n in files && claim.files[n] == files[n])
            && (forall n | n in files ::
                  n in claim.files <==>
                    && !(claim.taken.Some? && n == claim.taken.value.id + ".json")
                    && !(files[n].Unparsable? && EndsWith(n, ".json") && !EndsWith(n, ".done.json")))
  {
    var queue := QueueIsTheWaiting(files, listing);
    if queue != [] {
      SweepingKeepsTheWaiting(files, PendingNames(listing), queue[0]);
    }
    forall n | n in files
      ensures n in PendingNames(listing) <==> EndsWith(n, ".json") && !EndsWith(n, ".done.json")
    {
      PendingAreTheNamed(listing, n);
    }
  }

  /** Everything else that was waiting still waits, and the command taken does not. */
  lemma ClaimLeavesTheRestWaiting(files: Files, listing: seq<string>, c: FileCommand)
    requires WellNamed(files) && Sorting.Distinct(listing) && forall n :: n in listing <==> n in files
    ensures Waiting(ClaimOf(files, listing).files, c) <==> Waiting(files, c) && ClaimOf(files, listing).taken != Some(c)
  {
    var queue := QueueIsTheWaiting(files, listing);
    SweepingKeepsTheWaiting(files, PendingNames(listing), c);
    if queue != [] {
      SweepingKeepsTheWaiting(files, PendingNames(listing), queue[0]);
      if JsonName(c.id) == JsonName(queue[0].id) {
        NamesAreInjective(c.id, queue[0].id);
      }
    }
  }

  /** The name decides whether a command can ever be claimed: one whose id ends in ".done" is
    * taken for a result and left where it is. */
  lemma PendingIff(id: string)
    ensures IsPending(JsonName(id)) <==> !EndsWith(id, ".done")
  {
    var name := JsonName(id);
    assert name[|name| - 5..] == ".json";
    if EndsWith(name, ".done.json") {
      assert id == name[..|name| - 5];
      assert id[|id| - 5..] == name[|name| - 10..][..5] == ".done";
    }
    if EndsWith(id, ".done") {
      assert name[|name| - 10..] == id[|id| - 5..] + ".json";
    }
  }
}
