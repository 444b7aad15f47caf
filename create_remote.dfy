/**
 * The `create-remote` management command: validate the options, then create
 * a CollectionRemote and create or associate a repository and a distribution
 * with it, all in one transaction, and finally write the status messages.
 */
module CreateRemote {
  import opened Wrappers
  import opened Strings

  /** The command's options after argument parsing (`name`, `repository` and `distribution` already slugified). */
  datatype Options = Options(
    name: string,
    url: string,
    token: Option<string>,
    policy: Option<string>,
    authUrl: Option<string>,
    repository: Option<string>,
    distribution: Option<string>,
    requirementsFile: Option<string>)

  /** An absent or empty option, which Python treats as false. */
  predicate Falsy(o: Option<string>) {
    o.None? || o.value == ""
  }

  /** `option or name` */
  function OrName(o: Option<string>, name: string): (r: string)
    ensures Falsy(o) ==> r == name
    ensures !Falsy(o) ==> r == o.value
  {
    if Falsy(o) then name else o.value
  }

  /** Why the command stops. */
  datatype Reason =
    | UrlEndsWithSlash
    | RequirementsUnparsable
    | CommunityWithoutRequirements
    | RemoteNotCreated
    | RepositoryHasRemote
    | DistributionHasRepository
    | DistributionHasRemote

  /** A CommandError the command raises, or an IntegrityError it lets through. */
  datatype Failure = CommandError(reason: Reason) | IntegrityError

  /** `valid_url`: a URL ending in '/' is refused, any other is kept as given. */
  function ValidUrl(url: string): (r: Result<string, Failure>)
    ensures r.Ok? <==> !EndsWith(url, "/")
    ensures r.Ok? ==> r.value == url
    ensures r.Err? ==> r.error == CommandError(UrlEndsWithSlash)
  {
    if |url| >= 1 && url[|url| - 1..] == "/" then Err(CommandError(UrlEndsWithSlash)) else Ok(url)
  }

  /**
   * `validate`: syncing from a URL that contains one of the community
   * domains needs a requirements file; anything else passes unchanged.
   */
  function Validate(data: Options, communityDomains: seq<string>): (r: Result<Options, Failure>)
    ensures r.Err? <==> Falsy(data.requirementsFile) && exists i :: 0 <= i < |communityDomains| && Contains(data.url, communityDomains[i])
    ensures r.Ok? ==> r.value == data
    ensures r.Err? ==> r.error == CommandError(CommunityWithoutRequirements)
  {
    if Falsy(data.requirementsFile) && AnyContained(data.url, communityDomains) then
      Err(CommandError(CommunityWithoutRequirements))
    else Ok(data)
  }

  /** `any([domain in url for domain in domains])` */
  function AnyContained(url: string, domains: seq<string>): (r: bool)
    ensures r <==> exists i :: 0 <= i < |domains| && Contains(url, domains[i])
  {
    if domains == [] then false
    else
      var rest := AnyContained(url, domains[1..]);
      assert rest <==> exists i :: 1 <= i < |domains| && Contains(url, domains[i]) by {
        assert forall i :: 1 <= i < |domains| ==> domains[i] == domains[1..][i - 1];
        if rest {
          var j :| 0 <= j < |domains[1..]| && Contains(url, domains[1..][j]);
          assert domains[j + 1] == domains[1..][j];
        }
      }
      Contains(url, domains[0]) || rest
  }

  /** A CollectionRemote row. */
  datatype Remote = Remote(url: string, authUrl: Option<string>, token: Option<string>, requirementsFile: Option<string>)

  /** An AnsibleRepository row: the name of its remote, if any. */
  datatype Repository = Repository(remote: Option<string>)

  /** An AnsibleDistribution row: its base path and the names of its repository and remote, if any. */
  datatype Distribution = Distribution(basePath: string, repository: Option<string>, remote: Option<string>)

  /** The three tables the command writes, each keyed by its unique name. */
  datatype Tables = Tables(
    remotes: map<string, Remote>,
    repositories: map<string, Repository>,
    distributions: map<string, Distribution>)

  /** The tables and whether a get-or-create inserted its row. */
  datatype Step = Step(tables: Tables, created: bool)

  /** `create_remote` on the tables: a taken name is an IntegrityError, reported as a CommandError. */
  function RemoteStep(t: Tables, data: Options): (r: Result<Tables, Failure>)
    ensures r.Err? <==> data.name in t.remotes
    ensures r.Err? ==> r.error == CommandError(RemoteNotCreated)
    ensures r.Ok? ==> r.value == t.(remotes := t.remotes[data.name := Remote(data.url, data.authUrl, data.token, data.requirementsFile)])
  {
    if data.name in t.remotes then Err(CommandError(RemoteNotCreated))
    else Ok(t.(remotes := t.remotes[data.name := Remote(data.url, data.authUrl, data.token, data.requirementsFile)]))
  }

  /**
   * `create_repository` on the tables: get or create the repository named by
   * `--repository` or else the remote's name; refuse one that already has a
   * remote; otherwise point it at the new remote.
   */
  function RepositoryStep(t: Tables, data: Options, remote: string): (r: Result<Step, Failure>)
    ensures var name := OrName(data.repository, data.name);
      r.Err? <==> name in t.repositories && t.repositories[name].remote.Some?
    ensures r.Err? ==> r.error == CommandError(RepositoryHasRemote)
    ensures var name := OrName(data.repository, data.name);
      r.Ok? ==>
        && r.value.created == (name !in t.repositories)
        && r.value.tables.remotes == t.remotes && r.value.tables.distributions == t.distributions
        && r.value.tables.repositories.Keys == t.repositories.Keys + {name}
        && r.value.tables.repositories[name] == Repository(Some(remote))
        && (forall n :: n in t.repositories && n != name ==> r.value.tables.repositories[n] == t.repositories[n])
  {
    var name := OrName(data.repository, data.name);
    var created := name !in t.repositories;
    var repository := if created then Repository(None) else t.repositories[name];
    if repository.remote.Some? then Err(CommandError(RepositoryHasRemote))
    else Ok(Step(t.(repositories := t.repositories[name := repository.(remote := Some(remote))]), created))
  }

  /** Some distribution other than one named `name` has base path `path`. */
  predicate BasePathTaken(t: Tables, name: string, path: string) {
    exists d :: d in t.distributions && d != name && t.distributions[d].basePath == path
  }

  /**
   * `create_distribution` on the tables: get or create the distribution whose
   * name and base path are both `--distribution` or else the remote's name
   * (a row matching only one of them makes the insert break a uniqueness
   * constraint); refuse one that already has a repository or a remote;
   * otherwise link it to both.
   */
  function DistributionStep(t: Tables, data: Options, remote: string, repository: string): (r: Result<Step, Failure>)
    ensures var name := OrName(data.distribution, data.name);
      r == Err(IntegrityError) <==>
        || (name in t.distributions && t.distributions[name].basePath != name)
        || (name !in t.distributions && BasePathTaken(t, name, name))
    ensures var name := OrName(data.distribution, data.name);
      r.Ok? ==>
        && r.value.created == (name !in t.distributions)
        && (name in t.distributions ==> t.distributions[name] == Distribution(name, None, None))
        && r.value.tables.remotes == t.remotes && r.value.tables.repositories == t.repositories
        && r.value.tables.distributions.Keys == t.distributions.Keys + {name}
        && r.value.tables.distributions[name] == Distribution(name, Some(repository), Some(remote))
        && (forall n :: n in t.distributions && n != name ==> r.value.tables.distributions[n] == t.distributions[n])
  {
    var name := OrName(data.distribution, data.name);
    if name in t.distributions && t.distributions[name].basePath != name then Err(IntegrityError)
    else if name !in t.distributions && BasePathTaken(t, name, name) then Err(IntegrityError)
    else
      var created := name !in t.distributions;
      var distribution := if created then Distribution(name, None, None) else t.distributions[name];
      if distribution.repository.Some? then Err(CommandError(DistributionHasRepository))
      else if distribution.remote.Some? then Err(CommandError(DistributionHasRemote))
      else Ok(Step(t.(distributions := t.distributions[name := distribution.(repository := Some(repository), remote := Some(remote))]), created))
  }

  function RemoteMessage(name: string): string {
    "Created new CollectionRemote " + name
  }

  function RepositoryMessage(created: bool, name: string): string {
    (if created then "Created new" else "Associated existing") + " Repository " + name
  }

  function DistributionMessage(created: bool, name: string): string {
    (if created then "Created new" else "Associated existing") + " Distribution " + name
  }

  /**
   * What the transaction of one run leaves: the committed tables (the
   * tables it started from when it failed), the status messages it appended
   * to the list, and how it failed, if it did.
   */
  datatype Run = Run(tables: Tables, appended: seq<string>, failure: Option<Failure>)

  /** The three creations of `handle` inside `transaction.atomic()`. */
  function Transaction(t: Tables, data: Options): (r: Run)
    ensures r.failure.Some? ==> r.tables == t && |r.appended| < 3
    ensures r.failure.None? ==> |r.appended| == 3 && data.name in r.tables.remotes
  {
    match RemoteStep(t, data)
    case Err(f) => Run(t, [], Some(f))
    case Ok(t1) =>
      var m1 := RemoteMessage(data.name);
      match RepositoryStep(t1, data, data.name)
      case Err(f) => Run(t, [m1], Some(f))
      case Ok(s2) =>
        var repository := OrName(data.repository, data.name);
        var m2 := RepositoryMessage(s2.created, repository);
        match DistributionStep(s2.tables, data, data.name, repository)
        case Err(f) => Run(t, [m1, m2], Some(f))
        case Ok(s3) => Run(s3.tables, [m1, m2, DistributionMessage(s3.created, OrName(data.distribution, data.name))], None)
  }

  /**
   * All or nothing: a failed transaction leaves the tables as they were; a
   * successful one holds the new remote, a repository pointing at it and a
   * distribution linked to both, and changes nothing else.
   */
  lemma TransactionAllOrNothing(t: Tables, data: Options)
    ensures var run := Transaction(t, data);
      var repository := OrName(data.repository, data.name);
      var distribution := OrName(data.distribution, data.name);
      && (run.failure.Some? ==> run.tables == t)
      && (run.failure.None? <==>
            && data.name !in t.remotes
            && (repository in t.repositories ==> t.repositories[repository].remote.None?)
            && (distribution in t.distributions ==> t.distributions[distribution] == Distribution(distribution, None, None))
            && (distribution !in t.distributions ==> !BasePathTaken(t, distribution, distribution)))
      && (run.failure.None? ==>
            && run.tables.remotes == t.remotes[data.name := Remote(data.url, data.authUrl, data.token, data.requirementsFile)]
            && run.tables.repositories == t.repositories[repository := Repository(Some(data.name))]
            && run.tables.distributions == t.distributions[distribution := Distribution(distribution, Some(repository), Some(data.name))])
  {
    var distribution := OrName(data.distribution, data.name);
    if distribution in t.distributions {
      var d := t.distributions[distribution];
      if d.basePath == distribution && d.repository.None? && d.remote.None? {
        assert d == Distribution(distribution, None, None);
      }
    }
  }

  /**
   * A successful transaction appends exactly one message per creation, and
   * each names a row that the committed tables hold with the links the
   * command made.
   */
  lemma CommittedMessagesAreTrue(t: Tables, data: Options)
    requires Transaction(t, data).failure.None?
    ensures var run := Transaction(t, data);
      var repository := OrName(data.repository, data.name);
      var distribution := OrName(data.distribution, data.name);
      && run.appended == [RemoteMessage(data.name),
                          RepositoryMessage(repository !in t.repositories, repository),
                          DistributionMessage(distribution !in t.distributions, distribution)]
      && data.name in run.tables.remotes
      && repository in run.tables.repositories && run.tables.repositories[repository].remote == Some(data.name)
      && distribution in run.tables.distributions
      && run.tables.distributions[distribution].repository == Some(repository)
      && run.tables.distributions[distribution].remote == Some(data.name)
  {
    TransactionAllOrNothing(t, data);
  }

  /**
   * The status-message list is a class attribute, so it outlives a run. A
   * run that fails after creating its remote leaves the remote's message in
   * the list although the transaction drops the remote; the next successful
   * run in the same process writes that message as well as its own.
   */
  lemma StaleMessageAfterRollback()
    ensures var t := Tables(map["x" := Remote("https://x.example/api", None, None, None)], map["a" := Repository(Some("x"))], map[]);
      var first := Options("a", "https://a.example/api", None, None, None, None, None, None);
      var second := Options("b", "https://b.example/api", None, None, None, None, None, None);
      var run1 := Transaction(t, first);
      var run2 := Transaction(run1.tables, second);
      && run1.failure == Some(CommandError(RepositoryHasRemote))
      && run1.tables == t
      && run2.failure.None?
      && RemoteMessage("a") in run1.appended + run2.appended
      && "a" !in run2.tables.remotes
  {
    var t := Tables(map["x" := Remote("https://x.example/api", None, None, None)], map["a" := Repository(Some("x"))], map[]);
    var second := Options("b", "https://b.example/api", None, None, None, None, None, None);
    assert "b" != "a";
    assert !BasePathTaken(t, "b", "b");
    assert RepositoryStep(t.(remotes := t.remotes["b" := Remote(second.url, None, None, None)]), second, "b").Ok?;
  }

  /** The rows the command writes, held by the database. */
  class Database {
    var remotes: map<string, Remote>
    var repositories: map<string, Repository>
    var distributions: map<string, Distribution>

    constructor(t: Tables)
      ensures State() == t
    {
      remotes := t.remotes;
      repositories := t.repositories;
      distributions := t.distributions;
    }

    function State(): Tables
      reads this
    {
      Tables(remotes, repositories, distributions)
    }

    /** Undo every write since `t` was the state: what leaving `transaction.atomic()` by an exception does. */
    method Rollback(t: Tables)
      modifies this
      ensures State() == t
    {
      remotes := t.remotes;
      repositories := t.repositories;
      distributions := t.distributions;
    }
  }

  /** The command, with the status-message list that its class holds. */
  class Command {
    /** `Command.status_messages`: one list shared by every run in the process. */
    var statusMessages: seq<string>
    /** `COMMUNITY_DOMAINS`, a galaxy constant. */
    const communityDomains: seq<string>

    constructor(statusMessages: seq<string>, communityDomains: seq<string>)
      ensures this.statusMessages == statusMessages && this.communityDomains == communityDomains
    {
      this.statusMessages := statusMessages;
      this.communityDomains := communityDomains;
    }

    /**
     * `load_requirements_file` once the file (if any) has been read:
     * `parses` is whether the requirements parser accepts `contents`.
     */
    method LoadRequirementsFile(contents: string, parses: bool) returns (r: Result<string, Failure>)
      modifies this
      ensures parses ==> r == Ok(contents) && statusMessages == old(statusMessages) + ["requirements_file loaded and parsed"]
      ensures !parses ==> r == Err(CommandError(RequirementsUnparsable)) && statusMessages == old(statusMessages)
    {
      if !parses {
        return Err(CommandError(RequirementsUnparsable));
      }
      statusMessages := statusMessages + ["requirements_file loaded and parsed"];
      return Ok(contents);
    }

    /** `create_remote`: returns the new remote's name. */
    method CreateRemote(db: Database, data: Options) returns (r: Result<string, Failure>)
      modifies this, db
      ensures match RemoteStep(old(db.State()), data)
        case Ok(t) => r == Ok(data.name) && db.State() == t && statusMessages == old(statusMessages) + [RemoteMessage(data.name)]
        case Err(f) => r == Err(f) && db.State() == old(db.State()) && statusMessages == old(statusMessages)
    {
      if data.name in db.remotes {
        return Err(CommandError(RemoteNotCreated));
      }
      db.remotes := db.remotes[data.name := Remote(data.url, data.authUrl, data.token, data.requirementsFile)];
      statusMessages := statusMessages + [RemoteMessage(data.name)];
      return Ok(data.name);
    }

    /** `create_repository`: returns the repository's name. */
    method CreateRepository(db: Database, data: Options, remote: string) returns (r: Result<string, Failure>)
      modifies this, db
      ensures match RepositoryStep(old(db.State()), data, remote)
        case Ok(s) => r == Ok(OrName(data.repository, data.name)) && db.State() == s.tables
                      && statusMessages == old(statusMessages) + [RepositoryMessage(s.created, OrName(data.repository, data.name))]
        case Err(f) => r == Err(f) && db.State() == old(db.State()) && statusMessages == old(statusMessages)
    {
      var name := OrName(data.repository, data.name);
      var created := name !in db.repositories;
      if created {
        db.repositories := db.repositories[name := Repository(None)];
      }
      var repository := db.repositories[name];
      if repository.remote.Some? {
        return Err(CommandError(RepositoryHasRemote));
      }
      db.repositories := db.repositories[name := repository.(remote := Some(remote))];
      statusMessages := statusMessages + [RepositoryMessage(created, name)];
      return Ok(name);
    }

    /** `create_distribution` */
    method CreateDistribution(db: Database, data: Options, remote: string, repository: string) returns (r: Result<(), Failure>)
      modifies this, db
      ensures match DistributionStep(old(db.State()), data, remote, repository)
        case Ok(s) => r.Ok? && db.State() == s.tables
                      && statusMessages == old(statusMessages) + [DistributionMessage(s.created, OrName(data.distribution, data.name))]
        case Err(f) => r == Err(f) && db.State() == old(db.State()) && statusMessages == old(statusMessages)
    {
      var name := OrName(data.distribution, data.name);
      var created := false;
      if name in db.distributions {
        if db.distributions[name].basePath != name {
          return Err(IntegrityError);
        }
      } else {
        if BasePathTaken(db.State(), name, name) {
          return Err(IntegrityError);
        }
        db.distributions := db.distributions[name := Distribution(name, None, None)];
        created := true;
      }
      var distribution := db.distributions[name];
      if distribution.repository.Some? {
        return Err(CommandError(DistributionHasRepository));
      }
      if distribution.remote.Some? {
        return Err(CommandError(DistributionHasRemote));
      }
      db.distributions := db.distributions[name := distribution.(repository := Some(repository), remote := Some(remote))];
      statusMessages := statusMessages + [DistributionMessage(created, name)];
      return Ok(());
    }

    /** The creations of `handle` inside the transaction; on an exception every write is undone. */
    method Atomic(db: Database, data: Options) returns (r: Result<(), Failure>)
      modifies this, db
      ensures var run := Transaction(old(db.State()), data);
        && db.State() == run.tables
        && statusMessages == old(statusMessages) + run.appended
        && (run.failure.None? ==> r.Ok?)
        && (run.failure.Some? ==> r == Err(run.failure.value))
    {
      var saved := db.State();
      var remote := CreateRemote(db, data);
      if remote.Err? {
        return Err(remote.error);
      }
      var repository := CreateRepository(db, data, remote.value);
      if repository.Err? {
        db.Rollback(saved);
        return Err(repository.error);
      }
      var distribution := CreateDistribution(db, data, remote.value, repository.value);
      if distribution.Err? {
        db.Rollback(saved);
        return Err(distribution.error);
      }
      return Ok(());
    }

    /**
     * `handle`, as written: validate, run the transaction, then write every
     * message in the class-level list, including those left by earlier runs
     * in the process.
     */
    method Handle(db: Database, data: Options) returns (written: seq<string>, r: Result<(), Failure>)
      modifies this, db
      ensures Validate(data, communityDomains).Err? ==>
        r == Err(Validate(data, communityDomains).error) && written == [] && unchanged(this, db)
      ensures Validate(data, communityDomains).Ok? ==>
        var run := Transaction(old(db.State()), data);
        && db.State() == run.tables
        && statusMessages == old(statusMessages) + run.appended
        && (run.failure.None? ==> r.Ok? && written == old(statusMessages) + run.appended)
        && (run.failure.Some? ==> r == Err(run.failure.value) && written == [])
    {
      var validated := Validate(data, communityDomains);
      if validated.Err? {
        return [], Err(validated.error);
      }
      r := Atomic(db, validated.value);
      written := if r.Ok? then statusMessages else [];
    }
  }

  /** The messages argument parsing of one run appends: one when a requirements file is given and parses. */
  function ParseMessages(data: Options, parses: bool): seq<string> {
    if data.requirementsFile.Some? && parses then ["requirements_file loaded and parsed"] else []
  }

  /**
   * One run of the command as written, in a process whose earlier runs left
   * `cmd.statusMessages` behind. Argument parsing converts the options in
   * command-line order: `fileBeforeUrl` says whether `-r` came before the
   * URL, so that `load_requirements_file` ran before `valid_url`. Then
   * `handle` runs. A successful run writes the leftovers of earlier runs
   * before its own messages; a refused or failed run writes nothing but
   * leaves its appended messages in the list.
   */
  method RunSharingMessages(cmd: Command, db: Database, data: Options, parses: bool, fileBeforeUrl: bool)
    returns (written: seq<string>, r: Result<(), Failure>)
    modifies cmd, db
    ensures var urlBad, fileBad := EndsWith(data.url, "/"), data.requirementsFile.Some? && !parses;
      fileBad && (fileBeforeUrl || !urlBad) ==>
        && r == Err(CommandError(RequirementsUnparsable)) && written == [] && db.State() == old(db.State())
        && cmd.statusMessages == old(cmd.statusMessages)
    ensures var urlBad, fileBad := EndsWith(data.url, "/"), data.requirementsFile.Some? && !parses;
      urlBad && (!fileBeforeUrl || !fileBad) ==>
        && r == Err(CommandError(UrlEndsWithSlash)) && written == [] && db.State() == old(db.State())
        && cmd.statusMessages == old(cmd.statusMessages) + (if fileBeforeUrl then ParseMessages(data, parses) else [])
    ensures !EndsWith(data.url, "/") && (data.requirementsFile.None? || parses) && Validate(data, cmd.communityDomains).Err? ==>
      && r == Err(Validate(data, cmd.communityDomains).error) && written == [] && db.State() == old(db.State())
      && cmd.statusMessages == old(cmd.statusMessages) + ParseMessages(data, parses)
    ensures !EndsWith(data.url, "/") && (data.requirementsFile.None? || parses) && Validate(data, cmd.communityDomains).Ok? ==>
      var run := Transaction(old(db.State()), data);
      && db.State() == run.tables
      && cmd.statusMessages == old(cmd.statusMessages) + ParseMessages(data, parses) + run.appended
      && (run.failure.None? ==> r.Ok? && written == old(cmd.statusMessages) + ParseMessages(data, parses) + run.appended)
      && (run.failure.Some? ==> r == Err(run.failure.value) && written == [])
  {
    if fileBeforeUrl && data.requirementsFile.Some? {
      var loaded := cmd.LoadRequirementsFile(data.requirementsFile.value, parses);
      if loaded.Err? {
        return [], Err(loaded.error);
      }
    }
    var url := ValidUrl(data.url);
    if url.Err? {
      return [], Err(url.error);
    }
    if !fileBeforeUrl && data.requirementsFile.Some? {
      var loaded := cmd.LoadRequirementsFile(data.requirementsFile.value, parses);
      if loaded.Err? {
        return [], Err(loaded.error);
      }
    }
    written, r := cmd.Handle(db, data);
  }

  /**
   * One run with a message list of its own (a Command made for the run): a
   * successful run writes exactly the messages of this run, and a run that
   * fails or is refused writes none.
   */
  method RunWithOwnMessages(db: Database, data: Options, communityDomains: seq<string>, parses: bool, fileBeforeUrl: bool)
    returns (written: seq<string>, r: Result<(), Failure>)
    modifies db
    ensures var urlBad, fileBad := EndsWith(data.url, "/"), data.requirementsFile.Some? && !parses;
      fileBad && (fileBeforeUrl || !urlBad) ==>
        r == Err(CommandError(RequirementsUnparsable)) && written == [] && db.State() == old(db.State())
    ensures var urlBad, fileBad := EndsWith(data.url, "/"), data.requirementsFile.Some? && !parses;
      urlBad && (!fileBeforeUrl || !fileBad) ==>
        r == Err(CommandError(UrlEndsWithSlash)) && written == [] && db.State() == old(db.State())
    ensures !EndsWith(data.url, "/") && (data.requirementsFile.None? || parses) && Validate(data, communityDomains).Err? ==>
      r == Err(Validate(data, communityDomains).error) && written == [] && db.State() == old(db.State())
    ensures !EndsWith(data.url, "/") && (data.requirementsFile.None? || parses) && Validate(data, communityDomains).Ok? ==>
      var run := Transaction(old(db.State()), data);
      && db.State() == run.tables
      && (run.failure.None? ==> r.Ok? && written == ParseMessages(data, parses) + run.appended)
      && (run.failure.Some? ==> r == Err(run.failure.value) && written == [])
  {
    var cmd := new Command([], communityDomains);
    written, r := RunSharingMessages(cmd, db, data, parses, fileBeforeUrl);
  }
}
