/** The start-up normalisation of `config.yml` (app/bot.rb, lines 10-43):
    fields renamed, coerced and deleted on an `OpenStruct`, nil fields
    dropped, then the check for the fields the bot cannot start without.
    Loading the YAML file and printing to the console are left out; the
    loaded file is the input map. */
module BotConfig {
  import opened Common

  /** The names of the fields an error can be about. */
  datatype Key = Id | ReactToSelf | HelpAlias | ReactToWebhooks | LogReady | LogToken | Game | Prefix

  /** The YAML values the configuration can hold. */
  datatype Value =
    | Nil
    | Bool(b: bool)
    | Int(i: int)
    | Str(s: string)
    | Sym(name: string)
    | List(items: seq<Value>)

  /** Ruby truthiness: everything but nil and false. */
  predicate Truthy(v: Value)
  {
    !(v.Nil? || v == Bool(false))
  }

  /** `v.class == TrueClass`. */
  predicate IsTrue(v: Value)
  {
    v == Bool(true)
  }

  /** A field of the struct: missing, or set (possibly to nil). */
  type Slot = Option<Value>

  /** An `OpenStruct` answers nil for a field it does not have. */
  function Get(f: Slot): Value
  {
    if f.Some? then f.value else Nil
  }

  /** The struct's table: one slot per field the start-up reads or writes,
      and the fields of any other name. */
  datatype Config = Config(
    id: Slot, clientId: Slot, kind: Slot, reactToSelf: Slot, parseSelf: Slot,
    helpAlias: Slot, helpCommand: Slot, spacesAllowed: Slot, reactToWebhooks: Slot,
    webhookCommands: Slot, reactToBots: Slot, ignoreBots: Slot, logMode: Slot,
    fancyLog: Slot, logReady: Slot, suppressReady: Slot, logToken: Slot,
    redactToken: Slot, game: Slot, token: Slot, prefix: Slot,
    others: map<string, Value>)

  /** What raises on the way: `delete_field` of a field the struct does
      not have, or a method the value does not have. */
  datatype ConfigError = NameError(field: Key) | NoMethodError(field: Key)

  predicate IsName(v: Value)
  {
    v.Str? || v.Sym?
  }

  function NameOf(v: Value): string
    requires IsName(v)
  {
    if v.Str? then v.s else v.name
  }

  /** Line 16: `help_alias.empty? ? false : help_alias.map(&:to_sym)`.
      Only strings, symbols and lists have `empty?`; of those only a list
      has `map`, and only strings and symbols have `to_sym`. */
  function HelpCommandOf(alias: Value): (r: Result<Value, ConfigError>)
    ensures r.Ok? <==> alias == Str("") || alias == Sym("") || (alias.List? && forall i :: 0 <= i < |alias.items| ==> IsName(alias.items[i]))
    ensures r.Ok? && alias.List? && alias.items != [] ==>
      && r.value.List? && |r.value.items| == |alias.items|
      && forall i :: 0 <= i < |alias.items| ==> r.value.items[i] == Sym(NameOf(alias.items[i]))
    ensures r.Ok? && !(alias.List? && alias.items != []) ==> r.value == Bool(false)
    ensures r.Err? ==> r.error == NoMethodError(HelpAlias)
  {
    match alias
    case Str(s) => if s == "" then Ok(Bool(false)) else Err(NoMethodError(HelpAlias))
    case Sym(s) => if s == "" then Ok(Bool(false)) else Err(NoMethodError(HelpAlias))
    case List(xs) =>
      if xs == [] then Ok(Bool(false))
      else if forall i :: 0 <= i < |xs| ==> IsName(xs[i]) then
        Ok(List(seq(|xs|, i requires 0 <= i < |xs| && IsName(xs[i]) => Sym(NameOf(xs[i])))))
      else Err(NoMethodError(HelpAlias))
    case _ => Err(NoMethodError(HelpAlias))
  }

  const LogModes: seq<string> := ["debug", "verbose", "normal", "quiet", "silent"]

  /** Line 22: a log mode outside the list, or not a string, becomes `:normal`. */
  function LogModeOf(v: Value): (r: Value)
    ensures r.Sym? && r.name in LogModes
    ensures v.Str? && v.s in LogModes ==> r == Sym(v.s)
    ensures !(v.Str? && v.s in LogModes) ==> r == Sym("normal")
  {
    if v.Str? && v.s in LogModes then Sym(v.s) else Sym("normal")
  }

  /** A slot that holds nil is dropped. */
  function Drop(f: Slot): (r: Slot)
    ensures r.Some? <==> f.Some? && !f.value.Nil?
    ensures r.Some? ==> r == f
  {
    if f == Some(Nil) then None else f
  }

  /** No field of the struct holds nil. */
  predicate NoNil(c: Config)
  {
    && c.id != Some(Nil) && c.clientId != Some(Nil) && c.kind != Some(Nil)
    && c.reactToSelf != Some(Nil) && c.parseSelf != Some(Nil) && c.helpAlias != Some(Nil)
    && c.helpCommand != Some(Nil) && c.spacesAllowed != Some(Nil) && c.reactToWebhooks != Some(Nil)
    && c.webhookCommands != Some(Nil) && c.reactToBots != Some(Nil) && c.ignoreBots != Some(Nil)
    && c.logMode != Some(Nil) && c.fancyLog != Some(Nil) && c.logReady != Some(Nil)
    && c.suppressReady != Some(Nil) && c.logToken != Some(Nil) && c.redactToken != Some(Nil)
    && c.game != Some(Nil) && c.token != Some(Nil) && c.prefix != Some(Nil)
    && forall s :: s in c.others ==> !c.others[s].Nil?
  }

  /** Line 32: the struct rebuilt from the fields whose value is not nil. */
  function WithoutNil(c: Config): (r: Config)
    ensures NoNil(r)
    ensures forall s :: s in r.others <==> s in c.others && !c.others[s].Nil?
    ensures forall s :: s in r.others ==> r.others[s] == c.others[s]
    // every named field is kept exactly when it does not hold nil
    ensures && r.id == Drop(c.id) && r.clientId == Drop(c.clientId) && r.kind == Drop(c.kind)
            && r.reactToSelf == Drop(c.reactToSelf) && r.parseSelf == Drop(c.parseSelf)
            && r.helpAlias == Drop(c.helpAlias) && r.helpCommand == Drop(c.helpCommand)
            && r.spacesAllowed == Drop(c.spacesAllowed) && r.reactToWebhooks == Drop(c.reactToWebhooks)
            && r.webhookCommands == Drop(c.webhookCommands) && r.reactToBots == Drop(c.reactToBots)
            && r.ignoreBots == Drop(c.ignoreBots) && r.logMode == Drop(c.logMode)
            && r.fancyLog == Drop(c.fancyLog) && r.logReady == Drop(c.logReady)
            && r.suppressReady == Drop(c.suppressReady) && r.logToken == Drop(c.logToken)
            && r.redactToken == Drop(c.redactToken) && r.game == Drop(c.game)
            && r.token == Drop(c.token) && r.prefix == Drop(c.prefix)
  {
    Config(
      Drop(c.id), Drop(c.clientId), Drop(c.kind), Drop(c.reactToSelf), Drop(c.parseSelf),
      Drop(c.helpAlias), Drop(c.helpCommand), Drop(c.spacesAllowed), Drop(c.reactToWebhooks),
      Drop(c.webhookCommands), Drop(c.reactToBots), Drop(c.ignoreBots), Drop(c.logMode),
      Drop(c.fancyLog), Drop(c.logReady), Drop(c.suppressReady), Drop(c.logToken),
      Drop(c.redactToken), Drop(c.game), Drop(c.token), Drop(c.prefix),
      map s | s in c.others && !c.others[s].Nil? :: c.others[s])
  }

  /** Lines 10-32: the normalised struct and the game, kept aside. The
      first `delete_field` of a missing field raises, in the order of the
      source, and so does a `help_alias` without a meaning as aliases. */
  function Normalized(c: Config): (r: Result<(Config, Value), ConfigError>)
    ensures r.Ok? <==>
      && c.id.Some? && c.reactToSelf.Some? && HelpCommandOf(Get(c.helpAlias)).Ok?
      && c.reactToWebhooks.Some? && c.logReady.Some? && c.logToken.Some? && c.game.Some?
    ensures c.id.None? ==> r == Err(NameError(Id))
    ensures c.id.Some? && c.reactToSelf.None? ==> r == Err(NameError(ReactToSelf))
    ensures c.id.Some? && c.reactToSelf.Some? && HelpCommandOf(Get(c.helpAlias)).Err? ==> r == Err(NoMethodError(HelpAlias))
    ensures c.id.Some? && c.reactToSelf.Some? && HelpCommandOf(Get(c.helpAlias)).Ok? ==>
      && (c.reactToWebhooks.None? ==> r == Err(NameError(ReactToWebhooks)))
      && (c.reactToWebhooks.Some? && c.logReady.None? ==> r == Err(NameError(LogReady)))
      && (c.reactToWebhooks.Some? && c.logReady.Some? && c.logToken.None? ==> r == Err(NameError(LogToken)))
      && (c.reactToWebhooks.Some? && c.logReady.Some? && c.logToken.Some? && c.game.None? ==> r == Err(NameError(Game)))
    ensures r.Ok? ==> r.value.1 == c.game.value
  {
    var c1 := c.(clientId := Some(Get(c.id)));
    if c1.id.None? then Err(NameError(Id)) else
    var c2 := c1.(id := None);
    var c3 := c2.(kind := Some(if Get(c2.kind) == Str("user") then Sym("user") else Sym("bot")));
    var c4 := c3.(parseSelf := Some(Bool(Truthy(Get(c3.reactToSelf)))));
    if c4.reactToSelf.None? then Err(NameError(ReactToSelf)) else
    var c5 := c4.(reactToSelf := None);
    var help := HelpCommandOf(Get(c5.helpAlias));
    if help.Err? then Err(help.error) else
    var c6 := c5.(helpCommand := Some(help.value));
    if c6.helpAlias.None? then Err(NameError(HelpAlias)) else
    var c7 := c6.(helpAlias := None);
    var c8 := c7.(spacesAllowed := Some(Bool(IsTrue(Get(c7.spacesAllowed)))));
    var c9 := c8.(webhookCommands := Some(Bool(IsTrue(Get(c8.reactToWebhooks)))));
    if c9.reactToWebhooks.None? then Err(NameError(ReactToWebhooks)) else
    var c10 := c9.(reactToWebhooks := None);
    var c11 := c10.(ignoreBots := Some(Bool(!Truthy(Get(c10.reactToBots)))));
    var c12 := c11.(logMode := Some(LogModeOf(Get(c11.logMode))));
    var c13 := c12.(fancyLog := Some(Bool(IsTrue(Get(c12.fancyLog)))));
    var c14 := c13.(suppressReady := Some(Bool(!Truthy(Get(c13.logReady)))));
    if c14.logReady.None? then Err(NameError(LogReady)) else
    var c15 := c14.(logReady := None);
    var c16 := c15.(redactToken := Some(Bool(!IsTrue(Get(c15.logToken)))));
    if c16.logToken.None? then Err(NameError(LogToken)) else
    var c17 := c16.(logToken := None);
    var game := Get(c17.game);
    if c17.game.None? then Err(NameError(Game)) else
    Ok((WithoutNil(c17.(game := None)), game))
  }

  /** On success the deleted fields are gone, every assigned field holds
      what its line computes from the file (`client_id` is the file's `id`,
      dropped when nil), and the untouched fields are copied unless nil. */
  lemma NormalizedFields(c: Config)
    requires Normalized(c).Ok?
    ensures var n := Normalized(c).value.0;
      && NoNil(n)
      && n.id.None? && n.reactToSelf.None? && n.helpAlias.None? && n.reactToWebhooks.None?
      && n.logReady.None? && n.logToken.None? && n.game.None?
      && n.clientId == Drop(c.id)
      && n.kind == Some(if Get(c.kind) == Str("user") then Sym("user") else Sym("bot"))
      && n.parseSelf == Some(Bool(Truthy(Get(c.reactToSelf))))
      && n.helpCommand == Some(HelpCommandOf(Get(c.helpAlias)).value)
      && n.spacesAllowed == Some(Bool(IsTrue(Get(c.spacesAllowed))))
      && n.webhookCommands == Some(Bool(IsTrue(Get(c.reactToWebhooks))))
      && n.ignoreBots == Some(Bool(!Truthy(Get(c.reactToBots))))
      && n.logMode == Some(LogModeOf(Get(c.logMode)))
      && n.fancyLog == Some(Bool(IsTrue(Get(c.fancyLog))))
      && n.suppressReady == Some(Bool(!Truthy(Get(c.logReady))))
      && n.redactToken == Some(Bool(!IsTrue(Get(c.logToken))))
      && n.token == Drop(c.token) && n.prefix == Drop(c.prefix) && n.reactToBots == Drop(c.reactToBots)
      && (forall s :: s in n.others <==> s in c.others && !c.others[s].Nil?)
      && (forall s :: s in n.others ==> n.others[s] == c.others[s])
  {
  }

  datatype Startup = Proceed | Exit | Crash(error: ConfigError)

  /** Whether a value has `empty?`, and if so its answer. */
  function Emptiness(v: Value): Option<bool>
  {
    match v
    case Str(s) => Some(s == "")
    case Sym(s) => Some(s == "")
    case List(xs) => Some(xs == [])
    case _ => None
  }

  /** Lines 37-43: line 39 asks the prefix whether it is empty before the
      decision on line 40, so a prefix without `empty?` raises first. */
  function StartupCheck(config: Config): (r: Startup)
    ensures Emptiness(Get(config.prefix)).None? <==> r == Crash(NoMethodError(Prefix))
    ensures r == Exit <==> (Emptiness(Get(config.prefix)).Some? &&
      (Get(config.clientId).Nil? || Get(config.token).Nil? || Emptiness(Get(config.prefix)).value))
  {
    var empty := Emptiness(Get(config.prefix));
    if empty.None? then Crash(NoMethodError(Prefix))
    else if Get(config.clientId).Nil? || Get(config.token).Nil? || empty.value then Exit
    else Proceed
  }

  /** Stated on the file as loaded: with a string prefix, the bot stops
      exactly when the file has no `id`, no `token` or an empty prefix. */
  lemma StartupFromFile(c: Config)
    requires Normalized(c).Ok?
    requires Get(c.prefix).Str?
    ensures StartupCheck(Normalized(c).value.0) == Exit <==>
      Get(c.id).Nil? || Get(c.token).Nil? || Get(c.prefix) == Str("")
  {
    NormalizedFields(c);
  }

  /** The struct the bot loads the file into. */
  class Struct {
    var table: Config

    constructor (loaded: Config)
      ensures table == loaded
    {
      table := loaded;
    }
  }

  /** Lines 10-32 on the struct, one assignment or `delete_field` at a
      time in the order of the source; the first one that raises ends the
      start-up. On success the struct holds the normalised table and the
      game is returned. */
  method Normalize(config: Struct) returns (r: Result<Value, ConfigError>)
    modifies config
    ensures Normalized(old(config.table)).Err? <==> r.Err?
    ensures r.Err? ==> r.error == Normalized(old(config.table)).error
    ensures r.Ok? ==> Normalized(old(config.table)).value == (config.table, r.value)
  {
    config.table := config.table.(clientId := Some(Get(config.table.id)));
    if config.table.id.None? { return Err(NameError(Id)); }
    config.table := config.table.(id := None);
    config.table := config.table.(kind := Some(if Get(config.table.kind) == Str("user") then Sym("user") else Sym("bot")));
    config.table := config.table.(parseSelf := Some(Bool(Truthy(Get(config.table.reactToSelf)))));
    if config.table.reactToSelf.None? { return Err(NameError(ReactToSelf)); }
    config.table := config.table.(reactToSelf := None);
    var help := HelpCommandOf(Get(config.table.helpAlias));
    if help.Err? { return Err(help.error); }
    config.table := config.table.(helpCommand := Some(help.value));
    if config.table.helpAlias.None? { return Err(NameError(HelpAlias)); }
    config.table := config.table.(helpAlias := None);
    config.table := config.table.(spacesAllowed := Some(Bool(IsTrue(Get(config.table.spacesAllowed)))));
    config.table := config.table.(webhookCommands := Some(Bool(IsTrue(Get(config.table.reactToWebhooks)))));
    if config.table.reactToWebhooks.None? { return Err(NameError(ReactToWebhooks)); }
    config.table := config.table.(reactToWebhooks := None);
    config.table := config.table.(ignoreBots := Some(Bool(!Truthy(Get(config.table.reactToBots)))));
    config.table := config.table.(logMode := Some(LogModeOf(Get(config.table.logMode))));
    config.table := config.table.(fancyLog := Some(Bool(IsTrue(Get(config.table.fancyLog)))));
    config.table := config.table.(suppressReady := Some(Bool(!Truthy(Get(config.table.logReady)))));
    if config.table.logReady.None? { return Err(NameError(LogReady)); }
    config.table := config.table.(logReady := None);
    config.table := config.table.(redactToken := Some(Bool(!IsTrue(Get(config.table.logToken)))));
    if config.table.logToken.None? { return Err(NameError(LogToken)); }
    config.table := config.table.(logToken := None);
    var game := Get(config.table.game);
    if config.table.game.None? { return Err(NameError(Game)); }
    config.table := WithoutNil(config.table.(game := None));
    r := Ok(game);
  }
}
