/** The settings table and the live configuration: defaults overlaid by rows, changed in process, reloaded. */
module Settings {
  import opened Wrappers
  import Strings = Text

  datatype Kind = Boolean | Integer | Float | Enum | String | Path | TextBlock
  datatype Edit = Live | RestartRequired | RebuildRequired | Locked
  datatype Meta = Meta(key: string, kind: Kind, edit: Edit, def: string, options: string, secret: bool)

  datatype Value = Flag(flag: bool) | Num(num: int) | Dec(dec: real) | Text(text: string)

  /** The fields by key, and the two credentials read from the environment. */
  datatype Config = Config(fields: map<string, Value>, embeddingKey: string, summarizerKey: string)

  /** `float` and `formats` stand for strtod and std::vformat, `getenv` for the environment, `hot` for the fields a
      reload copies. */
  datatype Env = Env(
    schema: seq<Meta>,
    defaults: Config,
    hot: seq<string>,
    float: string -> Option<real>,
    formats: string -> bool,
    getenv: string -> Option<string>)

  datatype Outcome = Accepted(restart: bool, rebuild: bool) | UnknownKey | LockedKey | InvalidValue

  // ----- Parsing and validating -----

  function ParseBool(v: string): Option<bool> {
    var s := Strings.Lower(v);
    if s == "true" || s == "yes" || s == "1" then Some(true)
    else if s == "false" || s == "no" || s == "0" then Some(false)
    else None
  }

  predicate IsSpace(c: char) {
    c == ' ' || '\t' <= c <= '\r'
  }

  function Strip(s: string): string {
    if s != "" && IsSpace(s[0]) then Strip(s[1..])
    else if s != "" && IsSpace(s[|s| - 1]) then Strip(s[..|s| - 1])
    else s
  }

  predicate IsDigit(c: char) {
    '0' <= c <= '9'
  }

  function Decimal(s: string): Option<nat> {
    if s == "" then Some(0)
    else
      var front := Decimal(s[..|s| - 1]);
      var c := s[|s| - 1];
      if front.Some? && IsDigit(c) then Some(front.value * 10 + (c as int - '0' as int)) else None
  }

  const MAX_LONG := 0x7FFF_FFFF_FFFF_FFFF

  function ParseInt(v: string): Option<int> {
    var s := Strip(v);
    var digits := if s != "" && s[0] == '-' then s[1..] else s;
    var n := Decimal(digits);
    if digits == "" || n.None? then None
    else
      var x: int := if s[0] == '-' then 0 - n.value else n.value;
      if -MAX_LONG - 1 <= x <= MAX_LONG then Some(x) else None
  }

  /** The narrowing cast from long to int. */
  function Narrow(n: int): int {
    (n + 0x8000_0000) % 0x1_0000_0000 - 0x8000_0000
  }

  function MetaOf(schema: seq<Meta>, key: string): (m: Option<Meta>)
    ensures m.Some? ==> m.value.key == key && m.value in schema
    ensures m.None? ==> forall i | 0 <= i < |schema| :: schema[i].key != key
  {
    if schema == [] then None
    else if schema[0].key == key then Some(schema[0])
    else MetaOf(schema[1..], key)
  }

  /** The value is one of the comma-separated options. */
  predicate Offers(options: string, value: string, token: string)
    decreases |options|
  {
    if options == "" then token == value
    else if options[0] == ',' then token == value || Offers(options[1..], value, "")
    else Offers(options[1..], value, token + [options[0]])
  }

  predicate IsIdentifier(s: string) {
    s != "" && !IsDigit(s[0]) &&
    forall i | 0 <= i < |s| :: IsDigit(s[i]) || 'a' <= s[i] <= 'z' || 'A' <= s[i] <= 'Z' || s[i] == '_'
  }

  predicate ValidFor(env: Env, m: Meta, value: string) {
    value == "" ||
    match m.kind
    case Boolean => ParseBool(value).Some?
    case Integer =>
      ParseInt(value).Some? &&
      (m.key == "summarizer_target_pct" || m.key == "summarizer_max_pct" ==> 1 <= ParseInt(value).value <= 100)
    case Float => env.float(value).Some?
    case Enum => m.options == "" || Offers(m.options, value, "")
    case String => m.key == "embedding_api_key_env" || m.key == "summarizer_api_key_env" ==> IsIdentifier(value)
    case Path => m.key == "summarizer_prompt" ==> env.formats(value)
    case TextBlock => m.key == "summarizer_prompt" ==> env.formats(value)
  }

  /** What a value means for the field: an empty one means the schema's default. */
  function Effective(env: Env, m: Meta, value: string): Value {
    var eff := if value == "" then m.def else value;
    match m.kind
    case Boolean => Flag(ParseBool(eff) == Some(true))
    case Integer =>
      var n := match ParseInt(eff) case Some(n) => n case None => 0;
      Num(if m.key == "log_max_size_mb" then n else Narrow(n))
    case Float => Dec(match env.float(eff) case Some(d) => d case None => 0.0)
    case _ => Text(eff)
  }

  // ----- One value -----

  function FromEnv(env: Env, cfg: Config, key: string): string {
    if key in cfg.fields && cfg.fields[key].Text? && cfg.fields[key].text != "" then
      match env.getenv(cfg.fields[key].text) case Some(v) => v case None => ""
    else ""
  }

  function Resolve(env: Env, cfg: Config): Config {
    cfg.(embeddingKey := FromEnv(env, cfg, "embedding_api_key_env"),
         summarizerKey := FromEnv(env, cfg, "summarizer_api_key_env"))
  }

  lemma ResolveFields(env: Env, cfg: Config, fields: map<string, Value>)
    ensures Resolve(env, Resolve(env, cfg)) == Resolve(env, cfg)
    ensures Resolve(env, Resolve(env, cfg).(fields := fields)) == Resolve(env, cfg.(fields := fields))
  {
  }

  function Judge(env: Env, cfg: Config, key: string, value: string, allowLocked: bool): Outcome {
    match MetaOf(env.schema, key)
    case None => UnknownKey
    case Some(m) =>
      if m.edit == Locked && !allowLocked then LockedKey
      else if !ValidFor(env, m, value) then InvalidValue
      else if key !in cfg.fields then UnknownKey
      else Accepted(m.edit == RestartRequired, m.edit == RebuildRequired)
  }

  /** apply_config_value on a copy: the configuration is returned as it was when the value is rejected. */
  function ApplyValue(env: Env, cfg: Config, key: string, value: string, allowLocked: bool): Config {
    if Judge(env, cfg, key, value, allowLocked).Accepted? then
      Resolve(env, cfg.(fields := cfg.fields[key := Effective(env, MetaOf(env.schema, key).value, value)]))
    else cfg
  }

  // ----- Defaults overlaid by rows -----

  type Rows = map<string, string>

  function Overlaid(env: Env, cfg: Config, rows: Rows, n: nat): Config
    requires n <= |env.schema|
  {
    if n == 0 then cfg
    else
      var before := Overlaid(env, cfg, rows, n - 1);
      var key := env.schema[n - 1].key;
      if key in rows then ApplyValue(env, before, key, rows[key], true) else before
  }

  predicate Unset(v: Value) {
    v == Text("") || v == Num(0)
  }

  const SEEDS: seq<(string, string)> := [
    ("desired_embedding_model", "embedding_model"),
    ("desired_embedding_vector_type", "embedding_vector_type"),
    ("desired_embedding_dimensions", "embedding_dimensions"),
    ("desired_embedding_engine", "embedding_engine"),
    ("desired_port", "port")]

  predicate Seeded(key: string) {
    exists i | 0 <= i < |SEEDS| :: SEEDS[i].0 == key
  }

  function SeedTo(cfg: Config, n: nat): Config
    requires n <= |SEEDS|
  {
    if n == 0 then cfg
    else
      var before := SeedTo(cfg, n - 1);
      var (key, from) := SEEDS[n - 1];
      if key in before.fields && from in before.fields && Unset(before.fields[key]) then
        before.(fields := before.fields[key := before.fields[from]])
      else before
  }

  /** What a start loads: without a database the defaults as they are. */
  function Restart(env: Env, rows: Rows, db: bool): Config {
    if db then Resolve(env, SeedTo(Overlaid(env, env.defaults, rows, |env.schema|), |SEEDS|)) else env.defaults
  }

  /** A schema entry without a field, as the array's unfilled places are: no value of it is ever accepted, and a row
      under its key changes nothing a start loads. */
  lemma {:induction false} FieldlessKey(env: Env, cfg: Config, rows: Rows, key: string, value: string,
                                        allowLocked: bool, n: nat)
    requires MetaOf(env.schema, key).Some? && key !in cfg.fields && n <= |env.schema|
    ensures !SetOutcome(env, cfg, key, value, allowLocked).Accepted? || IsMask(env, key, value)
    ensures ApplyValue(env, cfg, key, value, allowLocked) == cfg
    ensures Overlaid(env, cfg, rows[key := value], n) == Overlaid(env, cfg, rows - {key}, n)
  {
    hide ValidFor, Effective, Resolve;
    if n > 0 {
      FieldlessKey(env, cfg, rows, key, value, allowLocked, n - 1);
      OverlaidShape(env, cfg, rows - {key}, n - 1);
    }
  }

  // ----- What a start loads, key by key -----

  function Fresh(env: Env, rows: Rows, key: string): Value
    requires key in env.defaults.fields
  {
    var m := MetaOf(env.schema, key);
    if m.Some? && key in rows && ValidFor(env, m.value, rows[key]) then Effective(env, m.value, rows[key])
    else env.defaults.fields[key]
  }

  lemma {:induction false} OverlaidField(env: Env, cfg: Config, rows: Rows, n: nat, key: string)
    requires n <= |env.schema| && key in cfg.fields
    ensures var t := Overlaid(env, cfg, rows, n);
      t.fields.Keys == cfg.fields.Keys &&
      t.fields[key] ==
        var m := MetaOf(env.schema, key);
        if MetaOf(env.schema[..n], key).Some? && m.Some? && key in rows && ValidFor(env, m.value, rows[key])
        then Effective(env, m.value, rows[key]) else cfg.fields[key]
  {
    hide ValidFor, Effective, Resolve;
    if n > 0 {
      OverlaidField(env, cfg, rows, n - 1, key);
      MetaSnoc(env.schema, n - 1, key);
      var before := Overlaid(env, cfg, rows, n - 1);
      var k := env.schema[n - 1].key;
      if k in rows {
        ApplyField(env, before, k, rows[k], key);
      }
    }
  }

  lemma MetaSnoc(schema: seq<Meta>, n: nat, key: string)
    requires n < |schema|
    ensures MetaOf(schema[..n + 1], key).Some? <==> MetaOf(schema[..n], key).Some? || schema[n].key == key
    ensures schema[n].key == key ==> MetaOf(schema, key).Some?
  {
    assert schema[..n + 1][..n] == schema[..n];
    if MetaOf(schema[..n], key).Some? {
      var m := MetaOf(schema[..n], key).value;
      var i :| 0 <= i < n && schema[i] == m;
      assert schema[..n + 1][i] == m;
    }
    assert schema[..n + 1][n] == schema[n];
    if MetaOf(schema[..n + 1], key).Some? {
      var i :| 0 <= i < n + 1 && schema[i].key == key;
      assert i < n ==> schema[..n][i].key == key;
    }
  }

  lemma ApplyField(env: Env, cfg: Config, k: string, value: string, key: string)
    requires key in cfg.fields && MetaOf(env.schema, k).Some?
    ensures var m := MetaOf(env.schema, k).value;
      var t := ApplyValue(env, cfg, k, value, true);
      t.fields.Keys == cfg.fields.Keys &&
      t.fields[key] == if key == k && ValidFor(env, m, value) then Effective(env, m, value) else cfg.fields[key]
  {
    hide ValidFor, Effective;
  }

  lemma {:induction false} SeedField(cfg: Config, n: nat, key: string)
    requires n <= |SEEDS| && key in cfg.fields && !Seeded(key)
    ensures SeedTo(cfg, n).fields.Keys == cfg.fields.Keys && SeedTo(cfg, n).fields[key] == cfg.fields[key]
  {
    if n > 0 {
      SeedField(cfg, n - 1, key);
      hide SEEDS;
      assert SEEDS[n - 1].0 != key;
    }
  }

  /** Every key outside the seeded ones starts from its row, when it has a valid one, or from the default. */
  lemma RestartField(env: Env, rows: Rows, key: string)
    requires key in env.defaults.fields && !Seeded(key)
    ensures var t := Restart(env, rows, true);
      key in t.fields && t.fields[key] == Fresh(env, rows, key) && t == Resolve(env, t)
  {
    hide ValidFor, Effective, Seeded, SEEDS, SeedTo;
    var t := Overlaid(env, env.defaults, rows, |env.schema|);
    OverlaidField(env, env.defaults, rows, |env.schema|, key);
    assert env.schema[..|env.schema|] == env.schema;
    SeedField(t, |SEEDS|, key);
  }

  lemma SeedsApart(i: nat, j: nat)
    requires i < |SEEDS| && j < |SEEDS|
    ensures SEEDS[i].0 == SEEDS[j].0 ==> i == j
    ensures SEEDS[i].1 != SEEDS[j].0
  {
    assert SEEDS[i].0 != SEEDS[j].0 || i == j;
  }

  lemma {:induction false} SeedToAt(cfg: Config, n: nat, i: nat)
    requires i < |SEEDS| && n <= |SEEDS| && SEEDS[i].0 in cfg.fields && SEEDS[i].1 in cfg.fields
    ensures var t := SeedTo(cfg, n);
      t.fields.Keys == cfg.fields.Keys && t.fields[SEEDS[i].1] == cfg.fields[SEEDS[i].1] &&
      t.fields[SEEDS[i].0] ==
        (if i < n && Unset(cfg.fields[SEEDS[i].0]) then cfg.fields[SEEDS[i].1] else cfg.fields[SEEDS[i].0])
  {
    if n > 0 {
      SeedToAt(cfg, n - 1, i);
      SeedsApart(i, n - 1);
      SeedsApart(n - 1, i);
      hide SEEDS;
    }
  }

  /** A seeded key starts from the setting it is seeded from when it has no value of its own. */
  lemma RestartSeeded(env: Env, rows: Rows, i: nat)
    requires i < |SEEDS| && SEEDS[i].0 in env.defaults.fields && SEEDS[i].1 in env.defaults.fields
    ensures var t := Restart(env, rows, true);
      var own := Fresh(env, rows, SEEDS[i].0);
      SEEDS[i].0 in t.fields &&
      t.fields[SEEDS[i].0] == if Unset(own) then Fresh(env, rows, SEEDS[i].1) else own
  {
    hide SEEDS, ValidFor, Effective, Unset;
    var t := Overlaid(env, env.defaults, rows, |env.schema|);
    assert env.schema[..|env.schema|] == env.schema;
    OverlaidField(env, env.defaults, rows, |env.schema|, SEEDS[i].0);
    OverlaidField(env, env.defaults, rows, |env.schema|, SEEDS[i].1);
    SeedToAt(t, |SEEDS|, i);
  }

  // ----- Live against restart -----

  /** Agreement on every key outside the seeded ones and on the credentials. */
  ghost predicate Agrees(env: Env, a: Config, b: Config) {
    a.fields.Keys == b.fields.Keys == env.defaults.fields.Keys &&
    (forall k | k in env.defaults.fields && !Seeded(k) :: a.fields[k] == b.fields[k]) &&
    a.embeddingKey == b.embeddingKey && a.summarizerKey == b.summarizerKey
  }

  /** The names of the credentials' variables are settings, and not seeded; nor is anything a reload copies. */
  ghost predicate Wf(env: Env) {
    !Seeded("embedding_api_key_env") && !Seeded("summarizer_api_key_env") &&
    forall k <- env.hot :: k in env.defaults.fields && !Seeded(k)
  }

  datatype Write = Write(key: string, value: string)

  /** `pending` holds, for every call between its publishing and its writing the row, what it will write. */
  datatype State = State(live: Config, rows: Rows, db: bool, pending: map<nat, Write>)

  datatype Step =
    | Publish(call: nat, key: string, value: string, allowLocked: bool)
    | Persist(call: nat)
    | Reload

  /** The mask shown for a secret, written back. */
  predicate IsMask(env: Env, key: string, value: string) {
    var m := MetaOf(env.schema, key);
    m.Some? && m.value.secret && value == "<set>"
  }

  function SetOutcome(env: Env, cfg: Config, key: string, value: string, allowLocked: bool): Outcome {
    var judged := Judge(env, cfg, key, value, allowLocked);
    if judged == LockedKey || MetaOf(env.schema, key).None? then judged
    else if IsMask(env, key, value) then Accepted(false, false)
    else judged
  }

  predicate Publishes(env: Env, cfg: Config, key: string, value: string, allowLocked: bool) {
    Judge(env, cfg, key, value, allowLocked).Accepted? && !IsMask(env, key, value)
  }

  predicate Enabled(env: Env, s: State, e: Step) {
    match e
    case Publish(call, _, _, _) => call !in s.pending
    case Persist(call) => call in s.pending
    case Reload => true
  }

  function Reloaded(cfg: Config, loaded: Config, hot: seq<string>): Config {
    if hot == [] then cfg.(summarizerKey := loaded.summarizerKey)
    else
      var before := Reloaded(cfg, loaded, hot[..|hot| - 1]);
      var k := hot[|hot| - 1];
      if k in before.fields && k in loaded.fields then before.(fields := before.fields[k := loaded.fields[k]])
      else before
  }

  function Changes(cfg: Config, loaded: Config, hot: seq<string>): nat {
    if hot == [] then if cfg.summarizerKey != loaded.summarizerKey then 1 else 0
    else
      var before := Reloaded(cfg, loaded, hot[..|hot| - 1]);
      var k := hot[|hot| - 1];
      Changes(cfg, loaded, hot[..|hot| - 1]) +
      if k in before.fields && k in loaded.fields && before.fields[k] != loaded.fields[k] then 1 else 0
  }

  function Apply(env: Env, s: State, e: Step): State
    requires Enabled(env, s, e)
  {
    match e
    case Publish(call, key, value, allowLocked) =>
      if Publishes(env, s.live, key, value, allowLocked) then
        s.(live := ApplyValue(env, s.live, key, value, allowLocked), pending := s.pending[call := Write(key, value)])
      else s
    case Persist(call) =>
      var w := s.pending[call];
      s.(rows := if s.db then s.rows[w.key := w.value] else s.rows, pending := s.pending - {call})
    case Reload => s.(live := Reloaded(s.live, Restart(env, s.rows, s.db), env.hot))
  }

  /** No two calls for one key overlap, and no reload falls between a call's publishing and its row. */
  ghost predicate Orderly(s: State, e: Step) {
    match e
    case Publish(_, key, _, _) => forall c <- s.pending :: s.pending[c].key != key
    case Persist(_) => true
    case Reload => s.pending == map[]
  }

  /** The live value is what the row to come, or the row there is, will give. */
  predicate FieldInv(env: Env, s: State, key: string)
    requires key in env.defaults.fields
  {
    key in s.live.fields &&
    ((forall c <- s.pending :: s.pending[c].key != key) ==> s.live.fields[key] == Fresh(env, s.rows, key)) &&
    forall c <- s.pending | s.pending[c].key == key ::
      MetaOf(env.schema, key).Some? && ValidFor(env, MetaOf(env.schema, key).value, s.pending[c].value) &&
      s.live.fields[key] == Effective(env, MetaOf(env.schema, key).value, s.pending[c].value)
  }

  ghost predicate Inv(env: Env, s: State) {
    s.db && s.live.fields.Keys == env.defaults.fields.Keys &&
    (forall k | k in env.defaults.fields && !Seeded(k) :: FieldInv(env, s, k)) &&
    (forall c, d | c in s.pending && d in s.pending && s.pending[c].key == s.pending[d].key :: c == d) &&
    s.live == Resolve(env, s.live)
  }

  lemma StartInv(env: Env, rows: Rows)
    requires Wf(env)
    ensures Inv(env, State(Restart(env, rows, true), rows, true, map[]))
  {
    hide Seeded, Restart, Fresh, Resolve;
    var t := Restart(env, rows, true);
    RestartShape(env, rows);
    var s := State(t, rows, true, map[]);
    forall k | k in env.defaults.fields && !Seeded(k) ensures FieldInv(env, s, k) {
      RestartField(env, rows, k);
    }
  }

  lemma RestartShape(env: Env, rows: Rows)
    ensures var t := Restart(env, rows, true); t.fields.Keys == env.defaults.fields.Keys && t == Resolve(env, t)
  {
    hide SEEDS;
    OverlaidShape(env, env.defaults, rows, |env.schema|);
    SeedShape(Overlaid(env, env.defaults, rows, |env.schema|), |SEEDS|);
  }

  lemma {:induction false} OverlaidShape(env: Env, cfg: Config, rows: Rows, n: nat)
    requires n <= |env.schema|
    ensures Overlaid(env, cfg, rows, n).fields.Keys == cfg.fields.Keys
  {
    hide ValidFor, Effective;
    if n > 0 {
      OverlaidShape(env, cfg, rows, n - 1);
    }
  }

  lemma {:induction false} SeedShape(cfg: Config, n: nat)
    requires n <= |SEEDS|
    ensures SeedTo(cfg, n).fields.Keys == cfg.fields.Keys
  {
    hide SEEDS;
    if n > 0 {
      SeedShape(cfg, n - 1);
    }
  }

  lemma PublishInv(env: Env, s: State, call: nat, key: string, value: string, allowLocked: bool)
    requires Inv(env, s) && call !in s.pending && Orderly(s, Publish(call, key, value, allowLocked))
    ensures Inv(env, Apply(env, s, Publish(call, key, value, allowLocked)))
  {
    hide ValidFor, Effective, Seeded, Fresh, FromEnv;
    var t := Apply(env, s, Publish(call, key, value, allowLocked));
    if Publishes(env, s.live, key, value, allowLocked) {
      ResolveFields(env, s.live.(fields := t.live.fields), t.live.fields);
      forall k | k in env.defaults.fields && !Seeded(k) ensures FieldInv(env, t, k) {
        assert FieldInv(env, s, k);
        if k == key {
          assert t.pending[call].key == key;
        } else if forall c <- t.pending :: t.pending[c].key != k {
          forall c | c in s.pending ensures s.pending[c].key != k {
            assert t.pending[c] == s.pending[c];
          }
        }
      }
    }
  }

  lemma PersistInv(env: Env, s: State, call: nat)
    requires Inv(env, s) && call in s.pending
    ensures Inv(env, Apply(env, s, Persist(call)))
  {
    hide ValidFor, Effective, Seeded, Resolve;
    var t := Apply(env, s, Persist(call));
    var key := s.pending[call].key;
    forall k | k in env.defaults.fields && !Seeded(k) ensures FieldInv(env, t, k) {
      assert FieldInv(env, s, k);
      if k != key && (forall c <- t.pending :: t.pending[c].key != k) {
        forall c | c in s.pending ensures s.pending[c].key != k {
          if c != call { assert c in t.pending; }
        }
      }
    }
  }

  lemma {:induction false} ReloadedSame(env: Env, cfg: Config, loaded: Config, hot: seq<string>)
    requires Agrees(env, cfg, loaded) && forall k <- hot :: !Seeded(k)
    ensures Reloaded(cfg, loaded, hot) == cfg && Changes(cfg, loaded, hot) == 0
  {
    if hot != [] {
      hide Seeded;
      ReloadedSame(env, cfg, loaded, hot[..|hot| - 1]);
      assert hot[|hot| - 1] in hot;
    }
  }

  lemma QuietAgrees(env: Env, s: State)
    requires Wf(env) && Inv(env, s) && s.pending == map[]
    ensures Agrees(env, s.live, Restart(env, s.rows, s.db))
  {
    hide Restart, Fresh, Seeded;
    var t := Restart(env, s.rows, true);
    RestartShape(env, s.rows);
    forall k | k in env.defaults.fields && !Seeded(k) ensures s.live.fields[k] == t.fields[k] {
      RestartField(env, s.rows, k);
      assert FieldInv(env, s, k);
    }
    assert forall k | k in env.defaults.fields && !Seeded(k) :: s.live.fields[k] == t.fields[k];
    SameCredentials(env, s.live, t);
  }

  lemma SameCredentials(env: Env, a: Config, b: Config)
    requires Wf(env) && a == Resolve(env, a) && b == Resolve(env, b)
    requires a.fields.Keys == b.fields.Keys == env.defaults.fields.Keys
    requires forall k | k in env.defaults.fields && !Seeded(k) :: a.fields[k] == b.fields[k]
    ensures a.embeddingKey == b.embeddingKey && a.summarizerKey == b.summarizerKey
  {
    hide Seeded;
  }

  lemma StepInv(env: Env, s: State, e: Step)
    requires Wf(env) && Inv(env, s) && Enabled(env, s, e) && Orderly(s, e)
    ensures Inv(env, Apply(env, s, e))
  {
    match e
    case Publish(call, key, value, allowLocked) => PublishInv(env, s, call, key, value, allowLocked);
    case Persist(call) => PersistInv(env, s, call);
    case Reload =>
      QuietAgrees(env, s);
      ReloadedSame(env, s.live, Restart(env, s.rows, s.db), env.hot);
  }

  // ----- Runs -----

  ghost predicate Run(env: Env, states: seq<State>, steps: seq<Step>) {
    |states| == |steps| + 1 && states[0].db && states[0].pending == map[] &&
    states[0].live == Restart(env, states[0].rows, true) &&
    forall k | 0 <= k < |steps| ::
      Enabled(env, states[k], steps[k]) && Orderly(states[k], steps[k]) &&
      states[k + 1] == Apply(env, states[k], steps[k])
  }

  lemma {:induction false} RunInv(env: Env, states: seq<State>, steps: seq<Step>, k: nat)
    requires Wf(env) && Run(env, states, steps) && k < |states|
    ensures Inv(env, states[k])
  {
    hide Inv, Enabled, Orderly, Apply, Wf, Restart;
    if k == 0 {
      StartInv(env, states[0].rows);
    } else {
      RunInv(env, states, steps, k - 1);
      StepInv(env, states[k - 1], steps[k - 1]);
    }
  }

  /** After any run of calls, accepted or rejected, whenever no row is still to be written the live configuration is
      what a restart would load, and a reload changes nothing. */
  lemma LiveEqualsRestart(env: Env, states: seq<State>, steps: seq<Step>, k: nat)
    requires Wf(env) && Run(env, states, steps) && k < |states| && states[k].pending == map[]
    ensures var loaded := Restart(env, states[k].rows, states[k].db);
      Agrees(env, states[k].live, loaded) && Changes(states[k].live, loaded, env.hot) == 0 &&
      Apply(env, states[k], Reload) == states[k]
  {
    RunInv(env, states, steps, k);
    QuietAgrees(env, states[k]);
    ReloadedSame(env, states[k].live, Restart(env, states[k].rows, states[k].db), env.hot);
  }

  /** Whatever another process wrote, a reload brings every field it copies to what a restart would load. */
  lemma {:induction false} ReloadCatchesUp(env: Env, cfg: Config, loaded: Config, hot: seq<string>, key: string)
    requires cfg.fields.Keys == loaded.fields.Keys && key in cfg.fields
    ensures var t := Reloaded(cfg, loaded, hot);
      t.fields.Keys == cfg.fields.Keys && t.fields[key] == (if key in hot then loaded.fields[key] else cfg.fields[key])
  {
    if hot != [] {
      ReloadCatchesUp(env, cfg, loaded, hot[..|hot| - 1], key);
      assert hot == hot[..|hot| - 1] + [hot[|hot| - 1]];
    }
  }

  // ----- Where live and restart part -----

  function Overlap(env: Env, s: State, key: string, v: string, w: string): State
    requires s.pending == map[] && Publishes(env, s.live, key, v, false) && Publishes(env, s.live, key, w, false)
  {
    var s1 := Apply(env, s, Publish(1, key, v, false));
    var s2 := Apply(env, s1, Publish(2, key, w, false));
    Apply(env, Apply(env, s2, Persist(2)), Persist(1))
  }

  lemma OverlapState(env: Env, s: State, key: string, v: string, w: string)
    requires s.pending == map[] && s.db
    requires Publishes(env, s.live, key, v, false) && Publishes(env, s.live, key, w, false)
    ensures var t := Overlap(env, s, key, v, w);
      var fields := s.live.fields[key := Effective(env, MetaOf(env.schema, key).value, w)];
      t.live == Resolve(env, s.live.(fields := fields)) && t.db && t.rows == s.rows[key := v] && t.pending == map[]
  {
    hide ValidFor, Effective, FromEnv;
    var s1 := Apply(env, s, Publish(1, key, v, false));
    var s2 := Apply(env, s1, Publish(2, key, w, false));
    ResolveFields(env, s.live.(fields := s1.live.fields), s2.live.fields);
    var m := MetaOf(env.schema, key).value;
    assert s2.live.fields == s.live.fields[key := Effective(env, m, v)][key := Effective(env, m, w)];
    assert s2.live.fields == s.live.fields[key := Effective(env, m, w)];
    assert Apply(env, s2, Persist(2)).rows == s.rows[key := w];
    assert s.rows[key := w][key := v] == s.rows[key := v];
    assert Overlap(env, s, key, v, w).pending == map[];
  }

  /** Two calls for one key that overlap, the later publisher writing its row first: live and restart then agree
      exactly when the two values mean the same. */
  lemma OverlappingCalls(env: Env, s: State, key: string, v: string, w: string)
    requires Wf(env) && Inv(env, s) && s.pending == map[] && key in env.defaults.fields && !Seeded(key)
    requires Publishes(env, s.live, key, v, false) && Publishes(env, s.live, key, w, false)
    ensures var t := Overlap(env, s, key, v, w);
      var m := MetaOf(env.schema, key).value;
      t.pending == map[] &&
      (Agrees(env, t.live, Restart(env, t.rows, t.db)) <==> Effective(env, m, v) == Effective(env, m, w))
  {
    hide ValidFor, Effective, Seeded, Restart, FromEnv, Overlap, Apply, Wf;
    OverlapState(env, s, key, v, w);
    var t := Overlap(env, s, key, v, w);
    RestartField(env, t.rows, key);
    if Effective(env, MetaOf(env.schema, key).value, v) == Effective(env, MetaOf(env.schema, key).value, w) {
      ResolveFields(env, s.live.(fields := t.live.fields), t.live.fields);
      forall k | k in env.defaults.fields && !Seeded(k) ensures FieldInv(env, t, k) {
        assert FieldInv(env, s, k);
      }
      QuietAgrees(env, t);
    }
  }

  function ReloadInside(env: Env, s: State, key: string, v: string): State
    requires s.pending == map[] && Publishes(env, s.live, key, v, false)
  {
    var s1 := Apply(env, s, Publish(1, key, v, false));
    Apply(env, Apply(env, s1, Reload), Persist(1))
  }

  /** A reload between a call's publishing and its row: live and restart then agree exactly when the reload does not
      copy the key or the value means what the old one did. It takes a key it copies back to the old value, while
      the row holds the new one. A reload does copy the name of the summarizer's credential. */
  lemma ReloadDuringCall(env: Env, s: State, key: string, v: string)
    requires Wf(env) && Inv(env, s) && s.pending == map[] && key in env.defaults.fields
    requires "summarizer_api_key_env" in env.hot && Publishes(env, s.live, key, v, false)
    ensures var t := ReloadInside(env, s, key, v);
      var value := Effective(env, MetaOf(env.schema, key).value, v);
      t.pending == map[] &&
      (Agrees(env, t.live, Restart(env, t.rows, t.db)) <==> key !in env.hot || value == s.live.fields[key]) &&
      (key in env.hot ==> key in t.live.fields && t.live.fields[key] == s.live.fields[key])
  {
    hide ValidFor, Effective, Seeded, Restart, FromEnv, Fresh, Inv, Apply;
    var s1 := Apply(env, s, Publish(1, key, v, false));
    var t := ReloadInside(env, s, key, v);
    Published(env, s, key, v);
    if key !in env.hot || Effective(env, MetaOf(env.schema, key).value, v) == s.live.fields[key] {
      ReloadIdleInside(env, s, key, v);
      assert t == Apply(env, s1, Persist(1));
      StepInv(env, s1, Persist(1));
      QuietAgrees(env, t);
      if key in env.hot { ReloadTakesBack(env, s, key, v); }
    } else {
      ReloadTakesBack(env, s, key, v);
    }
  }

  lemma Published(env: Env, s: State, key: string, v: string)
    requires Wf(env) && Inv(env, s) && s.pending == map[] && key in env.defaults.fields
    requires Publishes(env, s.live, key, v, false)
    ensures var s1 := Apply(env, s, Publish(1, key, v, false));
      && Inv(env, s1) && s1.pending == map[1 := Write(key, v)] && s1.rows == s.rows && s1.db
      && s1.live == Resolve(env, s1.live) && key in s.live.fields
      && s1.live.fields == s.live.fields[key := Effective(env, MetaOf(env.schema, key).value, v)]
      && ReloadInside(env, s, key, v).pending == map[]
  {
    hide ValidFor, Effective, Seeded, Restart, FromEnv, Fresh;
    StepInv(env, s, Publish(1, key, v, false));
    assert Apply(env, s, Publish(1, key, v, false)).pending == map[1 := Write(key, v)];
  }

  /** A reload finds nothing to copy when the key is not among its own, or has its old value. */
  lemma ReloadIdleInside(env: Env, s: State, key: string, v: string)
    requires Wf(env) && Inv(env, s) && s.pending == map[] && key in env.defaults.fields
    requires "summarizer_api_key_env" in env.hot && Publishes(env, s.live, key, v, false)
    requires key !in env.hot || Effective(env, MetaOf(env.schema, key).value, v) == s.live.fields[key]
    ensures var s1 := Apply(env, s, Publish(1, key, v, false)); Apply(env, s1, Reload) == s1
  {
    hide ValidFor, Effective, Seeded, Restart, Fresh, Inv;
    var s1 := Apply(env, s, Publish(1, key, v, false));
    var loaded := Restart(env, s.rows, s.db);
    Published(env, s, key, v);
    RestartShape(env, s.rows);
    QuietAgrees(env, s);
    assert s.live.fields["summarizer_api_key_env"] == loaded.fields["summarizer_api_key_env"];
    NothingToCopy(s1.live, loaded, env.hot);
  }

  lemma {:induction false} NothingToCopy(cfg: Config, loaded: Config, hot: seq<string>)
    requires cfg.summarizerKey == loaded.summarizerKey
    requires forall k <- hot :: k in cfg.fields && k in loaded.fields && cfg.fields[k] == loaded.fields[k]
    ensures Reloaded(cfg, loaded, hot) == cfg
  {
    if hot != [] {
      NothingToCopy(cfg, loaded, hot[..|hot| - 1]);
      assert hot[|hot| - 1] in hot;
    }
  }

  lemma ReloadTakesBack(env: Env, s: State, key: string, v: string)
    requires Wf(env) && Inv(env, s) && s.pending == map[] && key in env.defaults.fields && key in env.hot
    requires Publishes(env, s.live, key, v, false)
    ensures var t := ReloadInside(env, s, key, v);
      var restarted := Restart(env, t.rows, t.db);
      key in t.live.fields && t.live.fields[key] == s.live.fields[key] && !Seeded(key) &&
      key in restarted.fields && restarted.fields[key] == Effective(env, MetaOf(env.schema, key).value, v)
  {
    hide ValidFor, Effective, Seeded, Restart, FromEnv;
    var s1 := Apply(env, s, Publish(1, key, v, false));
    var loaded := Restart(env, s1.rows, s1.db);
    RestartShape(env, s1.rows);
    RestartField(env, s1.rows, key);
    assert FieldInv(env, s, key);
    ReloadCatchesUp(env, s1.live, loaded, env.hot, key);
    var t := ReloadInside(env, s, key, v);
    RestartField(env, t.rows, key);
  }

  /** A change while the database file is missing is live but has no row: live and restart still agree exactly when
      the change changed neither the field nor the credentials. */
  lemma MissingDatabase(env: Env, s: State, key: string, v: string)
    requires !s.db && s.pending == map[] && key in env.defaults.fields && !Seeded(key)
    requires Agrees(env, s.live, Restart(env, s.rows, false)) && Publishes(env, s.live, key, v, false)
    ensures var t := Apply(env, Apply(env, s, Publish(1, key, v, false)), Persist(1));
      t.rows == s.rows && t.pending == map[] &&
      (Agrees(env, t.live, Restart(env, t.rows, t.db)) <==>
        Effective(env, MetaOf(env.schema, key).value, v) == s.live.fields[key] && Resolve(env, s.live) == s.live)
  {
    hide ValidFor, Effective, Seeded, FromEnv;
    var s1 := Apply(env, s, Publish(1, key, v, false));
    assert Apply(env, s1, Persist(1)).pending == map[];
    ResolveFields(env, s.live, s1.live.fields);
    if s1.live.fields[key] == s.live.fields[key] {
      SameField(s.live, key, s1.live.fields[key]);
    }
  }

  lemma SameField(cfg: Config, key: string, x: Value)
    requires key in cfg.fields && x == cfg.fields[key]
    ensures cfg.(fields := cfg.fields[key := x]) == cfg
  {
  }

  /** Changing the setting a seeded key was seeded from moves what a restart gives that key, but not the live one. */
  lemma SeededDrifts(env: Env, s: State, i: nat, v: string)
    requires Inv(env, s) && s.pending == map[] && i < |SEEDS|
    requires SEEDS[i].0 in env.defaults.fields && SEEDS[i].1 in env.defaults.fields
    requires Unset(Fresh(env, s.rows, SEEDS[i].0)) && Publishes(env, s.live, SEEDS[i].1, v, true)
    ensures var t := Apply(env, Apply(env, s, Publish(1, SEEDS[i].1, v, true)), Persist(1));
      SEEDS[i].0 in t.live.fields && t.live.fields[SEEDS[i].0] == s.live.fields[SEEDS[i].0] &&
      SEEDS[i].0 in Restart(env, t.rows, t.db).fields &&
      Restart(env, t.rows, t.db).fields[SEEDS[i].0] == Effective(env, MetaOf(env.schema, SEEDS[i].1).value, v)
  {
    SeedsApart(i, i);
    hide SEEDS, ValidFor, Effective, Unset, Restart, FromEnv;
    var t := Apply(env, Apply(env, s, Publish(1, SEEDS[i].1, v, true)), Persist(1));
    assert t.rows == s.rows[SEEDS[i].1 := v];
    RestartSeeded(env, t.rows, i);
  }

  // ----- In place -----

  /** overlay_settings_from_db on an existing database. */
  method Overlay(env: Env, base: Config, rows: Rows) returns (cfg: Config)
    ensures cfg == Resolve(env, SeedTo(Overlaid(env, base, rows, |env.schema|), |SEEDS|))
  {
    hide Judge, Effective, FromEnv, SEEDS;
    cfg := base;
    for n := 0 to |env.schema|
      invariant cfg == Overlaid(env, base, rows, n)
    {
      var key := env.schema[n].key;
      if key !in rows {
        continue;
      }
      cfg := ApplyValue(env, cfg, key, rows[key], true);
    }
    ghost var overlaid := cfg;
    for n := 0 to |SEEDS|
      invariant cfg == SeedTo(overlaid, n)
    {
      var (key, from) := SEEDS[n];
      if key in cfg.fields && from in cfg.fields && Unset(cfg.fields[key]) {
        cfg := cfg.(fields := cfg.fields[key := cfg.fields[from]]);
      }
    }
    cfg := Resolve(env, cfg);
  }

  class ConfigStore {
    const env: Env
    var live: Config
    var rows: Rows
    var db: bool
    ghost var pending: map<nat, Write>

    ghost function View(): State
      reads this
    {
      State(live, rows, db, pending)
    }

    /** The first init_config of a process. */
    constructor (env: Env, rows: Rows, db: bool)
      ensures this.env == env && View() == State(Restart(env, rows, db), rows, db, map[])
    {
      this.env, this.rows, this.db, pending := env, rows, db, map[];
      var cfg := env.defaults;
      if db {
        cfg := Overlay(env, cfg, rows);
      }
      live := cfg;
    }

    /** update_config with apply_config_value: a rejected value publishes nothing. */
    method UpdateConfig(ghost call: nat, key: string, value: string, allowLocked: bool) returns (r: Outcome)
      requires call !in pending && !IsMask(env, key, value)
      modifies this
      ensures View() == Apply(env, old(View()), Publish(call, key, value, allowLocked))
      ensures r == Judge(env, old(live), key, value, allowLocked)
    {
      r := Judge(env, live, key, value, allowLocked);
      if r.Accepted? {
        live := ApplyValue(env, live, key, value, allowLocked);
        pending := pending[call := Write(key, value)];
      }
    }

    method WriteRow(ghost call: nat, key: string, value: string)
      requires call in pending && pending[call] == Write(key, value)
      modifies this
      ensures View() == Apply(env, old(View()), Persist(call))
    {
      if db {
        rows := rows[key := value];
      }
      pending := pending - {call};
    }

    /** set_config_persisted, with no other call in between. */
    method SetConfigPersisted(ghost call: nat, key: string, value: string, allowLocked: bool) returns (r: Outcome)
      requires call !in pending
      modifies this
      ensures r == SetOutcome(env, old(live), key, value, allowLocked)
      ensures pending == old(pending) && db == old(db)
      ensures var s := Apply(env, old(View()), Publish(call, key, value, allowLocked));
        View() == if call in s.pending then Apply(env, s, Persist(call)) else old(View())
    {
      var meta := MetaOf(env.schema, key);
      if meta.None? {
        return UnknownKey;
      }
      if meta.value.edit == Locked && !allowLocked {
        return LockedKey;
      }
      if meta.value.secret && value == "<set>" {
        return Accepted(false, false);
      }
      r := UpdateConfig(call, key, value, allowLocked);
      if !r.Accepted? {
        return;
      }
      WriteRow(call, key, value);
    }

    /** reload_config: the fields it copies, one by one, counting the changes. */
    method ReloadConfig() returns (changes: nat)
      modifies this
      ensures View() == Apply(env, old(View()), Reload)
      ensures changes == Changes(old(live), Restart(env, rows, db), env.hot)
    {
      hide Changes, Reloaded, Overlaid, SeedTo, Resolve;
      var loaded := env.defaults;
      if db {
        loaded := Overlay(env, loaded, rows);
      }
      var cfg;
      cfg, changes := CopyHot(live, loaded, env.hot);
      ReloadedIdle(live, loaded, env.hot);
      if changes > 0 {
        live := cfg;
      }
    }
  }

  method CopyHot(live: Config, loaded: Config, hot: seq<string>) returns (cfg: Config, changes: nat)
    ensures cfg == Reloaded(live, loaded, hot) && changes == Changes(live, loaded, hot)
  {
    cfg := live;
    changes := 0;
    if cfg.summarizerKey != loaded.summarizerKey {
      cfg := cfg.(summarizerKey := loaded.summarizerKey);
      changes := changes + 1;
    }
    for n := 0 to |hot|
      invariant cfg == Reloaded(live, loaded, hot[..n]) && changes == Changes(live, loaded, hot[..n])
    {
      assert hot[..n + 1][..n] == hot[..n];
      var k := hot[n];
      if k in cfg.fields && k in loaded.fields {
        if cfg.fields[k] != loaded.fields[k] {
          cfg := cfg.(fields := cfg.fields[k := loaded.fields[k]]);
          changes := changes + 1;
        } else {
          SameField(cfg, k, loaded.fields[k]);
        }
      }
    }
    assert hot[..|hot|] == hot;
  }

  /** A reload that counts no change has none to publish. */
  lemma {:induction false} ReloadedIdle(cfg: Config, loaded: Config, hot: seq<string>)
    ensures Changes(cfg, loaded, hot) == 0 ==> Reloaded(cfg, loaded, hot) == cfg
  {
    if hot != [] {
      ReloadedIdle(cfg, loaded, hot[..|hot| - 1]);
      var k := hot[|hot| - 1];
      if k in cfg.fields && k in loaded.fields && cfg.fields[k] == loaded.fields[k] {
        SameField(cfg, k, loaded.fields[k]);
      }
    }
  }
}
