/** Any number of writers and claimers at one directory, interleaved at every file-system
  * call, each free to stop for good at any point (worker/src/command-files.ts). */
module ClaimProtocol {
  import opened Text
  import opened CommandFiles
  import Sorting

  /** The two kinds of name a command's file has. */
  datatype Name = JsonOf(id: string) | TempOf(id: string)

  function FileName(n: Name): string {
    match n
    case JsonOf(id) => JsonName(id)
    case TempOf(id) => TempName(id)
  }

  predicate Claimable(n: Name) {
    n.JsonOf? && !EndsWith(n.id, ".done")
  }

  /** Different names are different files, and the listing keeps exactly the claimable ones. */
  lemma NamesAreFiles(a: Name, b: Name)
    ensures FileName(a) == FileName(b) ==> a == b
    ensures IsPending(FileName(a)) <==> Claimable(a)
  {
    if a.JsonOf? { PendingIff(a.id); }
    var s, t := FileName(a), FileName(b);
    assert s[|s| - 4..] == (if a.JsonOf? then "json" else ".tmp");
    assert t[|t| - 4..] == (if b.JsonOf? then "json" else ".tmp");
    assert a.TempOf? ==> a.id == s[1..|s| - 4];
    assert b.TempOf? ==> b.id == t[1..|t| - 4];
    if s == t && a.JsonOf? && b.JsonOf? { NamesAreInjective(a.id, b.id); }
    if a.TempOf? {
      assert s[|s| - 1] == 'p';
    }
  }

  datatype Stage = Partial | Full | Published

  /** One writer's progress; a command's id is its own. */
  datatype Write = Write(cmd: FileCommand, stage: Stage)

  datatype Phase =
    | Reading(todo: seq<Name>, parsed: seq<FileCommand>)
    | Removing(name: Name, rest: seq<Name>, parsed: seq<FileCommand>)
    | Claiming(queue: seq<FileCommand>)
    | Returned(taken: Option<FileCommand>)

  /** A claimer deleted the command's file: it returns the command, or stops and nobody does. */
  datatype Taking = Taking(claimer: nat, cmd: FileCommand)

  datatype State = State(
    files: map<Name, Content>, writes: map<string, Write>, claimers: map<nat, Phase>, taken: seq<Taking>)

  datatype Step =
    | Begin(cmd: FileCommand)
    | Fill(id: string)
    | Publish(id: string)
    | List(claimer: nat, listing: seq<Name>)
    | ReadNext(claimer: nat)
    | RemoveBad(claimer: nat)
    | TryUnlink(claimer: nat)
    | Crash(claimer: nat)

  // ── the steps ──────────────────────────────────────────────────────────────

  function AfterRead(s: State, p: Phase): Phase
    requires p.Reading?
  {
    if p.todo == [] then Claiming(Sorting.SortBy(p.parsed, Older))
    else
      var name := p.todo[0];
      if name !in s.files || s.files[name].Unparsable? then Removing(name, p.todo[1..], p.parsed)
      else if IsCommand(s.files[name]) then Reading(p.todo[1..], p.parsed + [CommandOf(s.files[name])])
      else Reading(p.todo[1..], p.parsed)
  }

  predicate MayBegin(garbage: set<Name>, s: State, cmd: FileCommand) {
    cmd.id !in s.writes && JsonOf(cmd.id) !in garbage && TempOf(cmd.id) !in garbage
  }

  predicate At(s: State, id: string, stage: Stage) {
    id in s.writes && s.writes[id].stage == stage
  }

  predicate In(s: State, k: nat, reading: bool) {
    k in s.claimers && (if reading then s.claimers[k].Reading? else s.claimers[k].Removing?)
  }

  /** A step that is not due changes nothing. Ids are the writers' own: no two writers share
    * one, and none is the name of a file that was lying there before. */
  function Next(garbage: set<Name>, s: State, t: Step): State {
    match t
    case Begin(cmd) =>
      if !MayBegin(garbage, s, cmd) then s
      else s.(files := s.files[TempOf(cmd.id) := Unparsable], writes := s.writes[cmd.id := Write(cmd, Partial)])
    case Fill(id) =>
      if !At(s, id, Partial) then s
      else s.(files := s.files[TempOf(id) := Written(s.writes[id].cmd)], writes := s.writes[id := s.writes[id].(stage := Full)])
    case Publish(id) =>
      if !At(s, id, Full) || TempOf(id) !in s.files then s
      else s.(files := (s.files - {TempOf(id)})[JsonOf(id) := s.files[TempOf(id)]],
              writes := s.writes[id := s.writes[id].(stage := Published)])
    case List(k, listing) =>
      if k in s.claimers && !s.claimers[k].Returned? then s
      else if exists n <- listing :: n !in s.files || !Claimable(n) then s
      else s.(claimers := s.claimers[k := Reading(listing, [])])
    case ReadNext(k) =>
      if !In(s, k, true) then s
      else s.(claimers := s.claimers[k := AfterRead(s, s.claimers[k])])
    case RemoveBad(k) =>
      if !In(s, k, false) then s
      else s.(files := s.files - {s.claimers[k].name},
              claimers := s.claimers[k := Reading(s.claimers[k].rest, s.claimers[k].parsed)])
    case TryUnlink(k) =>
      if k !in s.claimers || !s.claimers[k].Claiming? then s
      else
        var queue := s.claimers[k].queue;
        if queue == [] then s.(claimers := s.claimers[k := Returned(None)])
        else if JsonOf(queue[0].id) in s.files then
          s.(files := s.files - {JsonOf(queue[0].id)},
             claimers := s.claimers[k := Returned(Some(queue[0]))],
             taken := s.taken + [Taking(k, queue[0])])
        else s.(claimers := s.claimers[k := Claiming(queue[1..])])
    case Crash(k) => s.(claimers := s.claimers - {k})
  }

  /** The directory as it was found: files nobody can parse, under any names. */
  function Start(garbage: set<Name>): State {
    State(map n | n in garbage :: Unparsable, map[], map[], [])
  }

  function Run(garbage: set<Name>, steps: seq<Step>): State {
    if steps == [] then Start(garbage) else Next(garbage, Run(garbage, steps[..|steps| - 1]), steps[|steps| - 1])
  }

  // ── what every run keeps ───────────────────────────────────────────────────

  predicate IsPublished(s: State, c: FileCommand) {
    At(s, c.id, Published) && s.writes[c.id].cmd == c
  }

  /** A file is old garbage, a writer's own draft, or a whole published command. */
  predicate FileIsSound(garbage: set<Name>, s: State, n: Name)
    requires n in s.files
  {
    || (n in garbage && s.files[n].Unparsable? && n.id !in s.writes)
    || (n.TempOf? && At(s, n.id, Partial) && s.files[n].Unparsable?)
    || (n.TempOf? && At(s, n.id, Full) && s.files[n] == Written(s.writes[n.id].cmd))
    || (n.JsonOf? && At(s, n.id, Published) && s.files[n] == Written(s.writes[n.id].cmd))
  }

  /** A name a claimer has listed: garbage still, or a command's that was published. */
  predicate NameIsSettled(garbage: set<Name>, s: State, n: Name) {
    n.JsonOf? && (n in garbage || At(s, n.id, Published))
  }

  predicate PhaseIsSound(garbage: set<Name>, s: State, k: nat, p: Phase) {
    match p
    case Reading(todo, parsed) =>
      (forall n <- todo :: NameIsSettled(garbage, s, n)) && (forall c <- parsed :: IsPublished(s, c))
    case Removing(name, rest, parsed) =>
      && NameIsSettled(garbage, s, name) && (name in garbage || name !in s.files)
      && (forall n <- rest :: NameIsSettled(garbage, s, n)) && (forall c <- parsed :: IsPublished(s, c))
    case Claiming(queue) => forall c <- queue :: IsPublished(s, c)
    case Returned(taken) => taken.Some? ==> Taking(k, taken.value) in s.taken
  }

  /** Ids are where the writers put them. */
  ghost predicate IdsAreTheirOwn(garbage: set<Name>, s: State) {
    forall id <- s.writes :: s.writes[id].cmd.id == id && JsonOf(id) !in garbage && TempOf(id) !in garbage
  }

  ghost predicate TakenOnce(s: State) {
    && (forall i, j | 0 <= i < j < |s.taken| :: s.taken[i].cmd.id != s.taken[j].cmd.id)
    && (forall x <- s.taken :: IsPublished(s, x.cmd))
    && (forall x <- s.taken :: JsonOf(x.cmd.id) !in s.files)
  }

  predicate WasTaken(s: State, c: FileCommand) {
    exists x <- s.taken :: x.cmd == c
  }

  /** A draft is in place until it is published, and a command until it is taken. */
  ghost predicate NothingLost(s: State) {
    && (forall id <- s.writes | s.writes[id].stage != Published :: TempOf(id) in s.files)
    && (forall id <- s.writes | s.writes[id].stage == Published :: JsonOf(id) in s.files || WasTaken(s, s.writes[id].cmd))
  }

  /** The files, the writers and what was taken. */
  ghost predicate Core(garbage: set<Name>, s: State) {
    && IdsAreTheirOwn(garbage, s)
    && (forall n <- s.files :: FileIsSound(garbage, s, n))
    && TakenOnce(s)
    && NothingLost(s)
  }

  ghost predicate Phases(garbage: set<Name>, s: State) {
    forall k <- s.claimers :: PhaseIsSound(garbage, s, k, s.claimers[k])
  }

  ghost predicate Inv(garbage: set<Name>, s: State) {
    Core(garbage, s) && Phases(garbage, s)
  }

  // ── writers ────────────────────────────────────────────────────────────────

  lemma BeginKeepsTheRows(garbage: set<Name>, s: State, cmd: FileCommand)
    requires Core(garbage, s)
    ensures var r := Next(garbage, s, Begin(cmd)); TakenOnce(r) && NothingLost(r)
  {
  }

  lemma BeginKeepsCore(garbage: set<Name>, s: State, cmd: FileCommand)
    requires Core(garbage, s)
    ensures Core(garbage, Next(garbage, s, Begin(cmd)))
  {
    BeginKeepsTheRows(garbage, s, cmd);
  }

  lemma FillKeepsTheRows(garbage: set<Name>, s: State, id: string)
    requires Core(garbage, s)
    ensures var r := Next(garbage, s, Fill(id)); TakenOnce(r) && NothingLost(r)
  {
  }

  lemma FillKeepsCore(garbage: set<Name>, s: State, id: string)
    requires Core(garbage, s)
    ensures Core(garbage, Next(garbage, s, Fill(id)))
  {
    FillKeepsTheRows(garbage, s, id);
  }

  lemma PublishKeepsTheTaken(garbage: set<Name>, s: State, id: string)
    requires Core(garbage, s)
    ensures TakenOnce(Next(garbage, s, Publish(id)))
  {
  }

  lemma PublishLosesNothing(garbage: set<Name>, s: State, id: string)
    requires Core(garbage, s)
    ensures NothingLost(Next(garbage, s, Publish(id)))
  {
  }

  lemma PublishKeepsCore(garbage: set<Name>, s: State, id: string)
    requires Core(garbage, s)
    ensures Core(garbage, Next(garbage, s, Publish(id)))
  {
    PublishKeepsTheTaken(garbage, s, id);
    PublishLosesNothing(garbage, s, id);
    if At(s, id, Full) {
      assert FileIsSound(garbage, s, TempOf(id));
    }
  }

  /** Published stays published, a settled name that is gone stays gone, taken stays taken. */
  ghost predicate Grows(garbage: set<Name>, s: State, r: State) {
    && (forall id <- s.writes | s.writes[id].stage == Published :: id in r.writes && r.writes[id] == s.writes[id])
    && (forall n | NameIsSettled(garbage, s, n) && n !in s.files :: n !in r.files)
    && (forall x <- s.taken :: x in r.taken)
  }

  lemma PhaseStaysSound(garbage: set<Name>, s: State, r: State, k: nat, p: Phase)
    requires Grows(garbage, s, r) && PhaseIsSound(garbage, s, k, p)
    ensures PhaseIsSound(garbage, r, k, p)
  {
  }

  lemma OthersStaySound(garbage: set<Name>, s: State, r: State, others: set<nat>)
    requires Phases(garbage, s) && Grows(garbage, s, r)
    requires forall k <- others :: k in s.claimers && k in r.claimers && r.claimers[k] == s.claimers[k]
    ensures forall k <- others :: PhaseIsSound(garbage, r, k, r.claimers[k])
  {
    forall k <- others
      ensures PhaseIsSound(garbage, r, k, r.claimers[k])
    {
      PhaseStaysSound(garbage, s, r, k, s.claimers[k]);
    }
  }

  /** A writer's step leaves the claimers alone. */
  lemma CoreCarriesThePhases(garbage: set<Name>, s: State, r: State)
    requires Inv(garbage, s) && Core(garbage, r) && Grows(garbage, s, r) && r.claimers == s.claimers
    ensures Inv(garbage, r)
  {
    OthersStaySound(garbage, s, r, s.claimers.Keys);
  }

  lemma BeginKeepsInv(garbage: set<Name>, s: State, cmd: FileCommand)
    requires Inv(garbage, s)
    ensures Inv(garbage, Next(garbage, s, Begin(cmd)))
  {
    BeginKeepsCore(garbage, s, cmd);
    CoreCarriesThePhases(garbage, s, Next(garbage, s, Begin(cmd)));
  }

  lemma FillKeepsInv(garbage: set<Name>, s: State, id: string)
    requires Inv(garbage, s)
    ensures Inv(garbage, Next(garbage, s, Fill(id)))
  {
    FillKeepsCore(garbage, s, id);
    CoreCarriesThePhases(garbage, s, Next(garbage, s, Fill(id)));
  }

  lemma PublishKeepsInv(garbage: set<Name>, s: State, id: string)
    requires Inv(garbage, s)
    ensures Inv(garbage, Next(garbage, s, Publish(id)))
  {
    PublishKeepsCore(garbage, s, id);
    CoreCarriesThePhases(garbage, s, Next(garbage, s, Publish(id)));
  }

  // ── claimers ───────────────────────────────────────────────────────────────

  lemma ListedNamesAreSettled(garbage: set<Name>, s: State, k: nat, listing: seq<Name>)
    requires Core(garbage, s) && forall n <- listing :: n in s.files && Claimable(n)
    ensures PhaseIsSound(garbage, s, k, Reading(listing, []))
  {
    forall n <- listing
      ensures NameIsSettled(garbage, s, n)
    {
      assert FileIsSound(garbage, s, n);
    }
  }

  /** A read either gets a whole published command or finds a name that is safe to remove. */
  lemma ReadIsSound(garbage: set<Name>, s: State, k: nat, p: Phase)
    requires Core(garbage, s) && p.Reading? && PhaseIsSound(garbage, s, k, p)
    ensures PhaseIsSound(garbage, s, k, AfterRead(s, p))
  {
    if p.todo == [] {
      OlderIsTotal();
      Sorting.SortBySorts(p.parsed, Older);
    } else {
      var name := p.todo[0];
      assert NameIsSettled(garbage, s, name);
      if name in s.files {
        assert FileIsSound(garbage, s, name);
      }
    }
  }

  lemma RemovingKeepsCore(garbage: set<Name>, s: State, name: Name)
    requires Core(garbage, s) && (name in garbage || name !in s.files)
    ensures Core(garbage, s.(files := s.files - {name}))
    ensures Grows(garbage, s, s.(files := s.files - {name}))
  {
    if name in s.files {
      assert FileIsSound(garbage, s, name);
    }
  }

  /** Deleting a published command's file is what takes it, and it was not taken before. */
  lemma TakingKeepsCore(garbage: set<Name>, s: State, k: nat, c: FileCommand)
    requires Core(garbage, s) && IsPublished(s, c) && JsonOf(c.id) in s.files
    ensures var r := s.(files := s.files - {JsonOf(c.id)}, taken := s.taken + [Taking(k, c)]);
            Core(garbage, r) && Grows(garbage, s, r) && Taking(k, c) in r.taken
  {
    var r := s.(files := s.files - {JsonOf(c.id)}, taken := s.taken + [Taking(k, c)]);
    forall i | 0 <= i < |s.taken|
      ensures s.taken[i].cmd.id != c.id
    {
      assert s.taken[i] in s.taken;
    }
    assert Taking(k, c) == r.taken[|s.taken|];
    forall x <- r.taken
      ensures IsPublished(r, x.cmd) && JsonOf(x.cmd.id) !in r.files
    {
      assert x in s.taken || x == Taking(k, c);
    }
    forall x <- s.taken
      ensures x in r.taken
    {
    }
    forall d | WasTaken(s, d)
      ensures WasTaken(r, d)
    {
      var x :| x in s.taken && x.cmd == d;
      assert x in r.taken;
    }
    assert WasTaken(r, c);
  }

  lemma ClaimersAreNotCore(garbage: set<Name>, s: State, r: State, claimers: map<nat, Phase>)
    requires Core(garbage, r) && Grows(garbage, s, r)
    ensures Core(garbage, r.(claimers := claimers)) && Grows(garbage, s, r.(claimers := claimers))
  {
  }

  /** Everything but the phase of one claimer is as in `r`. */
  lemma MovingOneClaimer(garbage: set<Name>, s: State, r: State, k: nat, p: Phase)
    requires Phases(garbage, s) && Core(garbage, r) && Grows(garbage, s, r) && r.claimers == s.claimers
    requires PhaseIsSound(garbage, r, k, p)
    ensures Inv(garbage, r.(claimers := s.claimers[k := p]))
  {
    var q := r.(claimers := s.claimers[k := p]);
    ClaimersAreNotCore(garbage, s, r, s.claimers[k := p]);
    OthersStaySound(garbage, s, q, s.claimers.Keys - {k});
    assert PhaseIsSound(garbage, q, k, p);
  }

  lemma ClaimersKeepInv(garbage: set<Name>, s: State, t: Step)
    requires Inv(garbage, s) && (t.List? || t.ReadNext? || t.RemoveBad? || t.Crash?)
    ensures Inv(garbage, Next(garbage, s, t))
  {
    match t
    case List(k, listing) =>
      if !(exists n <- listing :: n !in s.files || !Claimable(n)) {
        ListedNamesAreSettled(garbage, s, k, listing);
        MovingOneClaimer(garbage, s, s, k, Reading(listing, []));
      }
    case ReadNext(k) =>
      if In(s, k, true) {
        ReadIsSound(garbage, s, k, s.claimers[k]);
        MovingOneClaimer(garbage, s, s, k, AfterRead(s, s.claimers[k]));
      }
    case RemoveBad(k) =>
      if In(s, k, false) {
        var p := s.claimers[k];
        RemovingKeepsCore(garbage, s, p.name);
        var r := s.(files := s.files - {p.name});
        PhaseStaysSound(garbage, s, r, k, p);
        MovingOneClaimer(garbage, s, r, k, Reading(p.rest, p.parsed));
      }
    case Crash(k) =>
      OthersStaySound(garbage, s, Next(garbage, s, t), s.claimers.Keys - {k});
  }

  lemma UnlinkKeepsInv(garbage: set<Name>, s: State, k: nat)
    requires Inv(garbage, s)
    ensures Inv(garbage, Next(garbage, s, TryUnlink(k)))
  {
    if k in s.claimers && s.claimers[k].Claiming? {
      var queue := s.claimers[k].queue;
      if queue == [] {
        MovingOneClaimer(garbage, s, s, k, Returned(None));
      } else if JsonOf(queue[0].id) in s.files {
        TakingKeepsCore(garbage, s, k, queue[0]);
        var r := s.(files := s.files - {JsonOf(queue[0].id)}, taken := s.taken + [Taking(k, queue[0])]);
        MovingOneClaimer(garbage, s, r, k, Returned(Some(queue[0])));
      } else {
        MovingOneClaimer(garbage, s, s, k, Claiming(queue[1..]));
      }
    }
  }

  // ── every run ──────────────────────────────────────────────────────────────

  lemma {:induction false} EveryRunKeepsInv(garbage: set<Name>, steps: seq<Step>)
    ensures Inv(garbage, Run(garbage, steps))
  {
    if steps != [] {
      var n := |steps| - 1;
      EveryRunKeepsInv(garbage, steps[..n]);
      var s := Run(garbage, steps[..n]);
      match steps[n]
      case TryUnlink(k) => UnlinkKeepsInv(garbage, s, k);
      case List(_, _) => ClaimersKeepInv(garbage, s, steps[n]);
      case ReadNext(_) => ClaimersKeepInv(garbage, s, steps[n]);
      case RemoveBad(_) => ClaimersKeepInv(garbage, s, steps[n]);
      case Crash(_) => ClaimersKeepInv(garbage, s, steps[n]);
      case Begin(cmd) => BeginKeepsInv(garbage, s, cmd);
      case Fill(id) => FillKeepsInv(garbage, s, id);
      case Publish(id) => PublishKeepsInv(garbage, s, id);
    }
  }

  /** However the calls interleave and whoever stops half-way: no command is taken twice, so
    * no two claimers return the same one; what is taken is the whole of what its writer
    * wrote; and a published command nobody took is still in the directory, whole. */
  lemma EachCommandIsClaimedAtMostOnce(garbage: set<Name>, steps: seq<Step>)
    ensures var s := Run(garbage, steps);
            && (forall i, j | 0 <= i < j < |s.taken| :: s.taken[i].cmd.id != s.taken[j].cmd.id)
            && (forall x <- s.taken :: x.cmd.id in s.writes && s.writes[x.cmd.id] == Write(x.cmd, Published))
            && (forall k <- s.claimers | s.claimers[k].Returned? && s.claimers[k].taken.Some? ::
                  Taking(k, s.claimers[k].taken.value) in s.taken)
            && (forall id <- s.writes | s.writes[id].stage == Published && !WasTaken(s, s.writes[id].cmd) ::
                  JsonOf(id) in s.files && s.files[JsonOf(id)] == Written(s.writes[id].cmd))
  {
    EveryRunKeepsInv(garbage, steps);
    var s := Run(garbage, steps);
    forall id <- s.writes | s.writes[id].stage == Published && !WasTaken(s, s.writes[id].cmd)
      ensures JsonOf(id) in s.files && s.files[JsonOf(id)] == Written(s.writes[id].cmd)
    {
      assert FileIsSound(garbage, s, JsonOf(id));
    }
    forall k <- s.claimers | s.claimers[k].Returned? && s.claimers[k].taken.Some?
      ensures Taking(k, s.claimers[k].taken.value) in s.taken
    {
      assert PhaseIsSound(garbage, s, k, s.claimers[k]);
    }
  }

  /** Two claimers that returned returned different commands. */
  lemma NoTwoClaimersShare(garbage: set<Name>, steps: seq<Step>, k: nat, m: nat)
    requires var s := Run(garbage, steps);
             && k in s.claimers && m in s.claimers && k != m
             && s.claimers[k].Returned? && s.claimers[k].taken.Some?
             && s.claimers[m].Returned? && s.claimers[m].taken.Some?
    ensures var s := Run(garbage, steps); s.claimers[k].taken.value.id != s.claimers[m].taken.value.id
  {
    EachCommandIsClaimedAtMostOnce(garbage, steps);
    var s := Run(garbage, steps);
    var i :| 0 <= i < |s.taken| && s.taken[i] == Taking(k, s.claimers[k].taken.value);
    var j :| 0 <= j < |s.taken| && s.taken[j] == Taking(m, s.claimers[m].taken.value);
  }

  // ── a claimer left alone ───────────────────────────────────────────────────

  function From(garbage: set<Name>, s: State, steps: seq<Step>): State
    decreases |steps|
  {
    if steps == [] then s else From(garbage, Next(garbage, s, steps[0]), steps[1..])
  }

  predicate IsOf(t: Step, k: nat) {
    t in {ReadNext(k), RemoveBad(k), TryUnlink(k)}
  }

  /** One of these files is a whole command, this one. */
  ghost predicate HeldIn(files: map<Name, Content>, names: seq<Name>, c: FileCommand) {
    exists n <- names :: n in files && files[n] == Written(c)
  }

  /** Reading is over: the queue holds what was parsed and what the listed files held, oldest
    * first, and only listed files that cannot be parsed are gone. */
  ghost predicate ReadOut(s: State, r: State, k: nat, todo: seq<Name>, parsed: seq<FileCommand>) {
    && r.writes == s.writes && r.taken == s.taken && k in r.claimers && r.claimers[k].Claiming?
    && var queue := r.claimers[k].queue;
    && (forall c :: c in queue <==> c in parsed || HeldIn(s.files, todo, c))
    && (queue != [] ==> forall c <- queue :: Older(queue[0], c))
    && (forall n :: n in r.files <==> n in s.files && !(n in todo && s.files[n].Unparsable?))
    && (forall n <- r.files :: r.files[n] == s.files[n])
  }

  lemma FromOneMore(garbage: set<Name>, s: State, t: Step, rest: seq<Step>)
    ensures From(garbage, s, [t] + rest) == From(garbage, Next(garbage, s, t), rest)
  {
    assert ([t] + rest)[1..] == rest;
  }

  lemma QueueIsSorted(parsed: seq<FileCommand>)
    ensures forall c :: c in Sorting.SortBy(parsed, Older) <==> c in parsed
    ensures var queue := Sorting.SortBy(parsed, Older); queue != [] ==> forall c <- queue :: Older(queue[0], c)
  {
    OlderIsTotal();
    Sorting.SortBySorts(parsed, Older);
    if parsed != [] {
      Sorting.HeadIsLeast(parsed, Older);
    }
  }

  lemma HeldInOneMore(files: map<Name, Content>, n: Name, rest: seq<Name>, c: FileCommand)
    ensures HeldIn(files, [n] + rest, c) <==> (n in files && files[n] == Written(c)) || HeldIn(files, rest, c)
  {
    assert forall m :: m in [n] + rest <==> m == n || m in rest;
  }

  /** Removing a file nobody can parse takes no command away. */
  lemma HeldAfterRemoving(files: map<Name, Content>, n: Name, names: seq<Name>, c: FileCommand)
    requires n in files ==> files[n].Unparsable?
    ensures HeldIn(files - {n}, names, c) <==> HeldIn(files, names, c)
  {
    if HeldIn(files, names, c) {
      var m :| m in names && m in files && files[m] == Written(c);
      assert m in files - {n};
    }
  }

  /** The first of the names was looked at. */
  lemma ReadOutOneMore(s: State, m: State, r: State, k: nat, n: Name, rest: seq<Name>, parsed: seq<FileCommand>)
    requires m.writes == s.writes && m.taken == s.taken
    requires m.files == if n in s.files && s.files[n].Unparsable? then s.files - {n} else s.files
    requires ReadOut(m, r, k, rest, parsed + if n in s.files && IsCommand(s.files[n]) then [CommandOf(s.files[n])] else [])
    ensures ReadOut(s, r, k, [n] + rest, parsed)
  {
    forall c
      ensures c in r.claimers[k].queue <==> c in parsed || HeldIn(s.files, [n] + rest, c)
    {
      HeldInOneMore(s.files, n, rest, c);
      if n in s.files && s.files[n].Unparsable? { HeldAfterRemoving(s.files, n, rest, c); }
    }
  }

  lemma {:induction false} ReadsToTheEnd(
    garbage: set<Name>, s: State, k: nat, todo: seq<Name>, parsed: seq<FileCommand>) returns (steps: seq<Step>)
    requires k in s.claimers && s.claimers[k] == Reading(todo, parsed)
    ensures forall t <- steps :: IsOf(t, k)
    ensures ReadOut(s, From(garbage, s, steps), k, todo, parsed)
    decreases |todo|
  {
    var m := Next(garbage, s, ReadNext(k));
    if todo == [] {
      steps := [ReadNext(k)] + [];
      FromOneMore(garbage, s, ReadNext(k), []);
      QueueIsSorted(parsed);
    } else {
      var n, rest := todo[0], todo[1..];
      assert todo == [n] + rest;
      if n !in s.files || s.files[n].Unparsable? {
        var q := Next(garbage, m, RemoveBad(k));
        var later := ReadsToTheEnd(garbage, q, k, rest, parsed);
        steps := [ReadNext(k)] + ([RemoveBad(k)] + later);
        FromOneMore(garbage, s, ReadNext(k), [RemoveBad(k)] + later);
        FromOneMore(garbage, m, RemoveBad(k), later);
        ReadOutOneMore(s, q, From(garbage, s, steps), k, n, rest, parsed);
      } else {
        var more := if IsCommand(s.files[n]) then [CommandOf(s.files[n])] else [];
        var later := ReadsToTheEnd(garbage, m, k, rest, parsed + more);
        steps := [ReadNext(k)] + later;
        FromOneMore(garbage, s, ReadNext(k), later);
        ReadOutOneMore(s, m, From(garbage, s, steps), k, n, rest, parsed);
      }
    }
  }

  /** A command whose file is there under a name that can be claimed. */
  ghost predicate Ready(s: State, c: FileCommand) {
    JsonOf(c.id) in s.files && s.files[JsonOf(c.id)] == Written(c) && Claimable(JsonOf(c.id))
  }

  ghost predicate OldestTaken(s: State, r: State, k: nat) {
    && k in r.claimers && r.claimers[k].Returned?
    && (r.claimers[k].taken.None? <==> forall c :: !Ready(s, c))
    && (r.claimers[k].taken.Some? ==>
          && Ready(s, r.claimers[k].taken.value)
          && (forall c | Ready(s, c) :: WrittenAt(r.claimers[k].taken.value) <= WrittenAt(c))
          && r.taken == s.taken + [Taking(k, r.claimers[k].taken.value)])
  }

  lemma {:induction false} FromInPieces(garbage: set<Name>, s: State, a: seq<Step>, t: Step)
    ensures From(garbage, s, a + [t]) == Next(garbage, From(garbage, s, a), t)
    decreases |a|
  {
    if a == [] {
      assert [] + [t] == [t] + [];
      FromOneMore(garbage, s, t, []);
    } else {
      assert a + [t] == [a[0]] + (a[1..] + [t]);
      FromOneMore(garbage, s, a[0], a[1..] + [t]);
      FromInPieces(garbage, Next(garbage, s, a[0]), a[1..], t);
    }
  }

  lemma HeldIsReady(garbage: set<Name>, s: State, listing: seq<Name>, c: FileCommand)
    requires Core(garbage, s)
    requires forall n :: n in listing <==> n in s.files && Claimable(n)
    ensures HeldIn(s.files, listing, c) <==> Ready(s, c)
  {
    if HeldIn(s.files, listing, c) {
      var n :| n in listing && n in s.files && s.files[n] == Written(c);
      assert FileIsSound(garbage, s, n);
    }
  }

  /** The head of the queue is there to be taken. */
  lemma UnlinksTheOldest(garbage: set<Name>, s: State, m: State, r: State, k: nat, listing: seq<Name>)
    requires Core(garbage, s) && m.files == s.files && m.taken == s.taken
    requires forall n :: n in listing <==> n in s.files && Claimable(n)
    requires ReadOut(m, r, k, listing, [])
    ensures OldestTaken(s, Next(garbage, r, TryUnlink(k)), k)
  {
    var queue := r.claimers[k].queue;
    forall c
      ensures c in queue <==> Ready(s, c)
    {
      HeldIsReady(garbage, s, listing, c);
    }
    if queue != [] {
      assert queue[0] in queue;
      assert JsonOf(queue[0].id) in r.files;
    }
  }

  /** Whatever went on before, a claimer that lists everything claimable and is then left
    * alone comes back with the oldest command there is, and with nothing only when there is
    * none: half-read files and strangers' rubbish never keep a command from being claimed. */
  lemma ALoneClaimerTakesTheOldest(garbage: set<Name>, before: seq<Step>, k: nat, listing: seq<Name>)
    returns (steps: seq<Step>)
    requires var s := Run(garbage, before);
             && (k in s.claimers ==> s.claimers[k].Returned?)
             && forall n :: n in listing <==> n in s.files && Claimable(n)
    ensures steps != [] && steps[0] == List(k, listing) && forall t <- steps[1..] :: IsOf(t, k)
    ensures OldestTaken(Run(garbage, before), From(garbage, Run(garbage, before), steps), k)
  {
    EveryRunKeepsInv(garbage, before);
    var s := Run(garbage, before);
    var m := Next(garbage, s, List(k, listing));
    var reading := ReadsToTheEnd(garbage, m, k, listing, []);
    var r := From(garbage, m, reading);
    steps := [List(k, listing)] + (reading + [TryUnlink(k)]);
    FromOneMore(garbage, s, List(k, listing), reading + [TryUnlink(k)]);
    FromInPieces(garbage, m, reading, TryUnlink(k));
    UnlinksTheOldest(garbage, s, m, r, k, listing);
  }

  // ── a writer left alone, and a lost race ───────────────────────────────────

  /** From any state where its id is free, a writer that gets through leaves its command
    * standing whole under its own name, nothing of its draft, and every other file as it was. */
  lemma AWriterPublishes(garbage: set<Name>, s: State, cmd: FileCommand)
    requires MayBegin(garbage, s, cmd) && TempOf(cmd.id) !in s.files && JsonOf(cmd.id) !in s.files
    ensures var r := From(garbage, s, [Begin(cmd), Fill(cmd.id), Publish(cmd.id)]);
            && r.files == s.files[JsonOf(cmd.id) := Written(cmd)]
            && IsPublished(r, cmd)
            && r.claimers == s.claimers && r.taken == s.taken
            && forall id <- s.writes :: id in r.writes && r.writes[id] == s.writes[id]
  {
    var begun := Next(garbage, s, Begin(cmd));
    var filled := Next(garbage, begun, Fill(cmd.id));
    var r := Next(garbage, filled, Publish(cmd.id));
    assert [Begin(cmd), Fill(cmd.id), Publish(cmd.id)] == [Begin(cmd)] + ([Fill(cmd.id)] + ([Publish(cmd.id)] + []));
    FromOneMore(garbage, s, Begin(cmd), [Fill(cmd.id)] + ([Publish(cmd.id)] + []));
    FromOneMore(garbage, begun, Fill(cmd.id), [Publish(cmd.id)] + []);
    FromOneMore(garbage, filled, Publish(cmd.id), []);
    assert r.files == s.files[JsonOf(cmd.id) := Written(cmd)];
  }

  /** A claimer whose queue others got to first goes down it, and returns the first command
    * whose file is still there, or nothing when none is. */
  lemma {:induction false} AClaimerEndsItsQueue(garbage: set<Name>, s: State, k: nat) returns (steps: seq<Step>)
    requires k in s.claimers && s.claimers[k].Claiming?
    ensures forall t <- steps :: t == TryUnlink(k)
    ensures var r := From(garbage, s, steps); var queue := s.claimers[k].queue;
            && k in r.claimers && r.claimers[k].Returned?
            && (r.claimers[k].taken.None? ==> r.files == s.files && forall c <- queue :: JsonOf(c.id) !in s.files)
            && (r.claimers[k].taken.Some? ==>
                  exists i | 0 <= i < |queue| :: TakenAt(s, r, k, queue, i))
    decreases |s.claimers[k].queue|
  {
    var m := Next(garbage, s, TryUnlink(k));
    var queue := s.claimers[k].queue;
    if queue == [] || JsonOf(queue[0].id) in s.files {
      steps := [TryUnlink(k)] + [];
      FromOneMore(garbage, s, TryUnlink(k), []);
      assert queue != [] ==> TakenAt(s, m, k, queue, 0);
    } else {
      var later := AClaimerEndsItsQueue(garbage, m, k);
      steps := [TryUnlink(k)] + later;
      FromOneMore(garbage, s, TryUnlink(k), later);
      var r := From(garbage, s, steps);
      assert queue == [queue[0]] + queue[1..];
      if r.claimers[k].taken.Some? {
        var i :| 0 <= i < |queue[1..]| && TakenAt(m, r, k, queue[1..], i);
        assert TakenAt(s, r, k, queue, i + 1);
      }
    }
  }

  /** The i-th of the queue was taken, the ones before it being gone. */
  ghost predicate TakenAt(s: State, r: State, k: nat, queue: seq<FileCommand>, i: nat)
    requires i < |queue| && k in r.claimers && r.claimers[k].Returned?
  {
    && r.claimers[k].taken == Some(queue[i])
    && JsonOf(queue[i].id) in s.files && r.files == s.files - {JsonOf(queue[i].id)}
    && r.taken == s.taken + [Taking(k, queue[i])]
    && forall j | 0 <= j < i :: JsonOf(queue[j].id) !in s.files
  }
}
