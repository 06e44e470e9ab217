/**
 * Start-up validation of the command-line configuration (main.go): the
 * `PreRunE` hook that checks and normalises the broker address, caps the
 * agent count for the public Eclipse test broker and requires a scenario,
 * and the part of `RunE` that picks the MQTT credentials and refuses to run
 * more agents than a credentials pool can serve.
 */
module Startup {
  import opened Wrappers
  import opened Text

  /** Port suffixes added to a broker address given without one. */
  const PlainPort: string := ":1883"
  const TlsPort: string := ":8883"

  /** The public test broker of the quick start, and the agent cap applied to it. */
  const EclipseHost: string := "iot.eclipse.org"
  const EclipseMaxAgents: int := 4

  /** The fatal start-up errors of this part of main.go. */
  datatype StartupError =
    | EmptyBroker                                     // "broker cannot be empty"
    | EmptyScenario                                   // "scenario cannot be empty"
    | CredentialsUnreadable(reason: string)           // loading the credentials file failed
    | TooFewCredentials(requested: int, available: nat) // "cannot create %d agents with only %d tokens provided"

  /** One (client id, username, password) triple. */
  datatype Credential = Credential(clientID: string, username: string, password: string)

  /**
   * Where agents get their credentials: one identity shared by all agents,
   * whose client id is a prefix completed per agent, or a pool loaded from
   * a credentials file.
   */
  datatype Credentials =
    | Fixed(clientIDPrefix: string, username: string, password: string)
    | Pooled(entries: seq<Credential>)

  function DefaultPort(disableMqttTLS: bool): string {
    if disableMqttTLS then PlainPort else TlsPort
  }

  /**
   * The broker address with the transport's default port appended when it
   * names no port: a plain address keeps everything it had and gains
   * ":1883" (plain TCP) or ":8883" (TLS); an address with a ':' is left alone.
   */
  function WithDefaultPort(addr: string, disableMqttTLS: bool): (r: string)
    ensures addr <= r
    ensures ':' in r
    ensures ':' in addr ==> r == addr
    ensures ':' !in addr ==> r == addr + DefaultPort(disableMqttTLS)
  {
    ContainsChar(addr, ':');
    if Contains(addr, ":") then addr else addr + DefaultPort(disableMqttTLS)
  }

  /** Normalising an address that has already been normalised changes nothing. */
  lemma WithDefaultPortIdempotent(addr: string, disableMqttTLS: bool, again: bool)
    ensures WithDefaultPort(WithDefaultPort(addr, disableMqttTLS), again) == WithDefaultPort(addr, disableMqttTLS)
  {
  }

  /** The normalised address still names the Eclipse broker when the given one did. */
  lemma WithDefaultPortKeepsHost(addr: string, disableMqttTLS: bool, host: string)
    requires Contains(addr, host)
    ensures Contains(WithDefaultPort(addr, disableMqttTLS), host)
  {
    if ':' !in addr {
      ContainsExtend(addr, DefaultPort(disableMqttTLS), host);
    }
  }

  /**
   * The agent count after the Eclipse cap: for an address naming the
   * public test broker it is at most 4, and lowered to exactly 4 when it was
   * larger; for any other address it is unchanged.
   */
  function ClampAgents(addr: string, nAgents: int): (r: int)
    ensures r <= nAgents
    ensures Contains(addr, EclipseHost) ==> r <= EclipseMaxAgents
    ensures r == nAgents || r == EclipseMaxAgents
    ensures r != nAgents <==> Contains(addr, EclipseHost) && nAgents > EclipseMaxAgents
  {
    if Contains(addr, EclipseHost) && nAgents > EclipseMaxAgents then EclipseMaxAgents else nAgents
  }

  /** Applying the cap a second time changes nothing. */
  lemma ClampAgentsIdempotent(addr: string, nAgents: int)
    ensures ClampAgents(addr, ClampAgents(addr, nAgents)) == ClampAgents(addr, nAgents)
  {
  }

  /** The identity an agent connects with: `suffix` stands for the per-agent unique id. */
  function CredentialFor(creds: Credentials, ordinal: nat, suffix: string): (r: Option<Credential>)
    ensures creds.Fixed? ==> r == Some(Credential(creds.clientIDPrefix + suffix, creds.username, creds.password))
    ensures creds.Pooled? ==> (r.Some? <==> ordinal < |creds.entries|)
    ensures creds.Pooled? && r.Some? ==> r.value == creds.entries[ordinal]
  {
    match creds
    case Fixed(prefix, user, pass) => Some(Credential(prefix + suffix, user, pass))
    case Pooled(entries) => if ordinal < |entries| then Some(entries[ordinal]) else None
  }

  /** The package-level configuration variables of main.go that start-up reads and writes. */
  class Config {
    var brokerAddr: string
    var scenarioFile: string
    var nAgents: int
    var disableMqttTLS: bool
    var clientIDPrefix: string
    var username: string
    var password: string
    var credentialsFile: string

    constructor (brokerAddr: string, scenarioFile: string, nAgents: int, disableMqttTLS: bool,
                 clientIDPrefix: string, username: string, password: string, credentialsFile: string)
      ensures this.brokerAddr == brokerAddr && this.scenarioFile == scenarioFile
      ensures this.nAgents == nAgents && this.disableMqttTLS == disableMqttTLS
      ensures this.clientIDPrefix == clientIDPrefix && this.username == username
      ensures this.password == password && this.credentialsFile == credentialsFile
    {
      this.brokerAddr := brokerAddr;
      this.scenarioFile := scenarioFile;
      this.nAgents := nAgents;
      this.disableMqttTLS := disableMqttTLS;
      this.clientIDPrefix := clientIDPrefix;
      this.username := username;
      this.password := password;
      this.credentialsFile := credentialsFile;
    }

    /**
     * The `PreRunE` hook. An empty broker address fails before anything is
     * looked at or changed. Otherwise the address gets its default port, the
     * agent count its Eclipse cap, and only then is the scenario path checked:
     * an empty one fails with both updates already made.
     */
    method PreRun() returns (r: Outcome<StartupError>)
      modifies this`brokerAddr, this`nAgents
      ensures old(brokerAddr) == "" ==> r == Fail(EmptyBroker) && brokerAddr == old(brokerAddr) && nAgents == old(nAgents)
      ensures old(brokerAddr) != "" ==> brokerAddr == WithDefaultPort(old(brokerAddr), disableMqttTLS)
      ensures old(brokerAddr) != "" ==> nAgents == ClampAgents(brokerAddr, old(nAgents))
      ensures old(brokerAddr) != "" ==> r == (if scenarioFile == "" then Fail(EmptyScenario) else Pass)
      ensures r.Pass? <==> old(brokerAddr) != "" && scenarioFile != ""
    {
      if brokerAddr == "" {
        return Fail(EmptyBroker);
      }

      if !Contains(brokerAddr, ":") {
        if disableMqttTLS {
          brokerAddr := brokerAddr + PlainPort;
        } else {
          brokerAddr := brokerAddr + TlsPort;
        }
      }

      if Contains(brokerAddr, EclipseHost) && nAgents > EclipseMaxAgents {
        nAgents := EclipseMaxAgents;
      }

      if scenarioFile == "" {
        return Fail(EmptyScenario);
      }

      return Pass;
    }

    /**
     * The credentials step of `RunE`. Without a credentials file every agent
     * shares the fixed identity built from the prefix, username and password.
     * With one, `loaded` is the outcome of reading it: a read error is fatal,
     * and so is a pool with fewer entries than agents; a pool exactly as large
     * as the agent count is accepted.
     */
    function SelectCredentials(loaded: Result<seq<Credential>, string>): (r: Result<Credentials, StartupError>)
      reads this
      ensures credentialsFile == "" ==> r == Ok(Fixed(clientIDPrefix, username, password))
      ensures credentialsFile != "" && loaded.Err? ==> r == Err(CredentialsUnreadable(loaded.error))
      ensures credentialsFile != "" && loaded.Ok? ==> (r.Ok? <==> nAgents <= |loaded.value|)
      ensures credentialsFile != "" && r.Ok? ==> loaded.Ok? && r.value == Pooled(loaded.value)
      ensures credentialsFile != "" && loaded.Ok? && nAgents > |loaded.value| ==>
                r == Err(TooFewCredentials(nAgents, |loaded.value|))
    {
      if credentialsFile == "" then
        Ok(Fixed(clientIDPrefix, username, password))
      else if loaded.Err? then
        Err(CredentialsUnreadable(loaded.error))
      else if nAgents > |loaded.value| then
        Err(TooFewCredentials(nAgents, |loaded.value|))
      else
        Ok(Pooled(loaded.value))
    }
  }

  /**
   * What the pool-size guard buys: once credentials are selected, every agent
   * ordinal below the agent count has a credential to connect with.
   */
  lemma EveryAgentHasCredential(c: Config, loaded: Result<seq<Credential>, string>, ordinal: nat, suffix: string)
    requires c.SelectCredentials(loaded).Ok?
    requires ordinal < c.nAgents
    ensures CredentialFor(c.SelectCredentials(loaded).value, ordinal, suffix).Some?
  {
  }

  /** The guard's boundary: a pool of exactly `nAgents` entries passes, one entry fewer fails. */
  lemma PoolSizeBoundary(c: Config, pool: seq<Credential>)
    requires c.credentialsFile != "" && c.nAgents == |pool| && |pool| > 0
    ensures c.SelectCredentials(Ok(pool)).Ok?
    ensures c.SelectCredentials(Ok(pool[1..])) == Err(TooFewCredentials(c.nAgents, |pool| - 1))
  {
  }

  /**
   * The start-up sequence: `RunE` runs only once `PreRunE` has passed, and
   * its pool-size guard reads the agent count as `PreRunE` left it, capped
   * for the Eclipse broker. The file loads that `RunE` makes before the
   * credentials step are not part of this sequence.
   */
  method StartUp(c: Config, loaded: Result<seq<Credential>, string>) returns (r: Result<Credentials, StartupError>)
    modifies c`brokerAddr, c`nAgents
    ensures old(c.brokerAddr) == "" ==> r == Err(EmptyBroker) && c.brokerAddr == old(c.brokerAddr) && c.nAgents == old(c.nAgents)
    ensures old(c.brokerAddr) != "" && c.scenarioFile == "" ==> r == Err(EmptyScenario)
    ensures old(c.brokerAddr) != "" ==> c.brokerAddr == WithDefaultPort(old(c.brokerAddr), c.disableMqttTLS)
    ensures old(c.brokerAddr) != "" ==> c.nAgents == ClampAgents(c.brokerAddr, old(c.nAgents))
    ensures old(c.brokerAddr) != "" && c.scenarioFile != "" ==> r == c.SelectCredentials(loaded)
  {
    var pre := c.PreRun();
    if pre.Fail? {
      return Err(pre.error);
    }
    r := c.SelectCredentials(loaded);
  }

  /**
   * The Eclipse cap comes before the pool guard: asking for 10 agents on
   * the public test broker with a pool of 4 credentials is accepted, since
   * the count has already been lowered to 4.
   */
  method EclipseCapMeetsPool(pool: seq<Credential>) returns (r: Result<Credentials, StartupError>)
    requires |pool| == EclipseMaxAgents
    ensures r == Ok(Pooled(pool))
  {
    var c := new Config(EclipseHost, "scenario.json", 10, false, "mq-hammer:", "", "", "credentials.csv");
    assert Contains(EclipseHost, EclipseHost);
    assert ':' !in EclipseHost;
    WithDefaultPortKeepsHost(EclipseHost, false, EclipseHost);
    r := StartUp(c, Ok(pool));
  }
}
