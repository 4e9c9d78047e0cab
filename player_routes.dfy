/**
 * The request checks of back-end/routes/player_routes.py: the validation and
 * the new record of `create_player`, and the validation of
 * `update_player_stats`. Storage, the lookup of an existing player by name
 * and id generation are outside the model; the new id is a parameter.
 */
module PlayerRoutes {
  import opened Wrappers
  import opened Json

  /** The three 400 answers of `create_player`, in the order they are checked. */
  datatype CreateError = NameRequired | NameNotString | InvalidTheme

  /** A player document as `create_player` builds it. */
  datatype Player = Player(id: string, name: string, wins: int, losses: int, draws: int, theme: Json)

  /** The two themes the route accepts. */
  predicate KnownTheme(v: Json)
  {
    v == JStr("white") || v == JStr("dark")
  }

  /**
   * `create_player` up to the database: a name that is a non-empty string is
   * required, and a theme, when truthy, must be "white" or "dark". The new
   * player has no wins, losses or draws; the theme defaults to "white" only
   * when the key is absent, so a present falsy theme ("" or null) is stored
   * as sent.
   */
  function CreatePlayer(body: Body, id: string): (r: Result<Player, CreateError>)
    ensures r.Ok? <==>
              Get(body, "name").JStr? && Get(body, "name").s != "" &&
              (Truthy(Get(body, "theme")) ==> KnownTheme(Get(body, "theme")))
    ensures r == Err(NameRequired) <==> !Truthy(Get(body, "name"))
    ensures r == Err(NameNotString) <==> Truthy(Get(body, "name")) && !Get(body, "name").JStr?
    ensures r.Ok? ==>
              && r.value.id == id && r.value.name == Get(body, "name").s
              && r.value.wins == 0 && r.value.losses == 0 && r.value.draws == 0
              && r.value.theme == (if Lookup(body, "theme").None? then JStr("white") else Get(body, "theme"))
  {
    var name := Get(body, "name");
    var theme := Get(body, "theme");
    if !Truthy(name) then Err(NameRequired)
    else if !name.JStr? then Err(NameNotString)
    else if Truthy(theme) && !KnownTheme(theme) then Err(InvalidTheme)
    else Ok(Player(id, name.s, 0, 0, 0, GetOr(body, "theme", JStr("white"))))
  }

  /** Every accepted player has a non-empty name and a theme that is known or falsy. */
  lemma CreatedPlayerWellFormed(body: Body, id: string)
    requires CreatePlayer(body, id).Ok?
    ensures var p := CreatePlayer(body, id).value;
            p.name != "" && (Truthy(p.theme) ==> KnownTheme(p.theme))
  {
    if Lookup(body, "theme").Some? {
      assert GetOr(body, "theme", JStr("white")) == Get(body, "theme");
    }
  }

  /** A present empty theme passes the check and is stored, not replaced by "white". */
  lemma EmptyThemeKept()
    ensures CreatePlayer([("name", JStr("ann")), ("theme", JStr(""))], "p1") ==
            Ok(Player("p1", "ann", 0, 0, 0, JStr("")))
  {
    var body: Body := [("name", JStr("ann")), ("theme", JStr(""))];
    assert Lookup(body, "name") == Some(JStr("ann"));
    assert Lookup(body, "theme") == Some(JStr(""));
  }

  /** The 400 answers of `update_player_stats`, naming the offending key. */
  datatype StatsError = InvalidKey(key: string) | NotInteger(key: string) | NotOne(key: string)

  /** The stat counters a request may name. */
  predicate StatKey(k: string)
  {
    k == "wins" || k == "losses" || k == "draws"
  }

  /** The three checks on one entry, in order: the key, the int type, the value 1. */
  function EntryError(e: (string, Json)): Option<StatsError>
  {
    if !StatKey(e.0) then Some(InvalidKey(e.0))
    else if !IsPyInt(e.1) then Some(NotInteger(e.0))
    else if PyIntValue(e.1) != 1 then Some(NotOne(e.0))
    else None
  }

  /**
   * The loop of `update_player_stats`: the error of the first entry that
   * fails a check, or None when every entry passes. An entry passes exactly
   * when it names a counter with an int equal to 1, so only increments by
   * one are let through (True among them, being the int 1).
   */
  function ValidateStats(body: seq<(string, Json)>): (r: Option<StatsError>)
    ensures r.None? <==>
              forall p :: 0 <= p < |body| ==>
                StatKey(body[p].0) && IsPyInt(body[p].1) && PyIntValue(body[p].1) == 1
    ensures r.Some? ==>
              exists p :: 0 <= p < |body| && EntryError(body[p]) == r &&
                          forall q :: 0 <= q < p ==> EntryError(body[q]).None?
  {
    if body == [] then None
    else if EntryError(body[0]).Some? then EntryError(body[0])
    else
      var r := ValidateStats(body[1..]);
      assert forall p :: 0 < p < |body| ==> body[p] == body[1..][p - 1];
      if r.Some? then
        var p :| 0 <= p < |body[1..]| && EntryError(body[1..][p]) == r &&
                 forall q :: 0 <= q < p ==> EntryError(body[1..][q]).None?;
        assert EntryError(body[p + 1]) == r;
        r
      else r
  }

  /** An empty body passes: the loop never runs. */
  lemma EmptyStatsPass()
    ensures ValidateStats([]) == None
  {
  }

  /** The boolean true passes as a value of 1, a decrement never does. */
  lemma TruePassesDecrementFails()
    ensures ValidateStats([("wins", JBool(true))]) == None
    ensures ValidateStats([("wins", JInt(-1))]) == Some(NotOne("wins"))
  {
  }
}
