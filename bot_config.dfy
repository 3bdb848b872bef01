/** The start-up settings of `cmd/alum-bot/main.go`: the bot token, the
    comma-separated list of test guilds and the guild list the commands are
    registered in. The command-line flags and the environment are read by
    the caller and passed in as text (an unset variable reads as ""). */
module BotConfig {

  /** `strings.Split(s, ",")`: the pieces between the commas, one more than
      there are commas. */
  function Split(s: string): (pieces: seq<string>)
    ensures |pieces| >= 1
  {
    if s == [] then [""]
    else
      var rest := Split(s[1..]);
      if s[0] == ',' then [""] + rest else [[s[0]] + rest[0]] + rest[1..]
  }

  /** `strings.Join(pieces, ",")`. */
  function Join(pieces: seq<string>): string {
    if |pieces| == 0 then ""
    else if |pieces| == 1 then pieces[0]
    else pieces[0] + "," + Join(pieces[1..])
  }

  function Commas(s: string): nat {
    if s == [] then 0 else (if s[0] == ',' then 1 else 0) + Commas(s[1..])
  }

  /** Splitting cuts the text at every comma and nowhere else: one piece
      more than there are commas, none holding a comma, and joining them
      with commas gives the text back. */
  lemma {:induction false} SplitJoin(s: string)
    ensures |Split(s)| == Commas(s) + 1
    ensures forall i :: 0 <= i < |Split(s)| ==> ',' !in Split(s)[i]
    ensures Join(Split(s)) == s
  {
    if s != [] {
      var rest := Split(s[1..]);
      SplitJoin(s[1..]);
      if s[0] == ',' {
        assert Split(s)[1..] == rest;
      } else {
        if |rest| >= 2 {
          assert rest[1..][0] == rest[1] && rest[1..][1..] == rest[2..];
          assert Join(rest) == rest[0] + "," + Join(rest[1..]);
        }
        assert s == [s[0]] + s[1..];
      }
    }
  }

  /** Text with no comma in front of more text: splitting glues it to the
      first piece of the rest. */
  lemma {:induction false} SplitPrefix(p: string, s: string)
    requires ',' !in p
    ensures Split(p + s) == [p + Split(s)[0]] + Split(s)[1..]
  {
    if p != [] {
      SplitPrefix(p[1..], s);
      assert (p + s)[1..] == p[1..] + s;
      assert (p + s)[0] == p[0];
      assert [p[0]] + (p[1..] + Split(s)[0]) == p + Split(s)[0];
    } else {
      assert p + s == s && p + Split(s)[0] == Split(s)[0];
      assert Split(s) == [Split(s)[0]] + Split(s)[1..];
    }
  }

  /** Joining pieces with no comma in them and splitting the result gives
      the pieces back. */
  lemma {:induction false} JoinSplit(pieces: seq<string>)
    requires |pieces| >= 1
    requires forall i :: 0 <= i < |pieces| ==> ',' !in pieces[i]
    ensures Split(Join(pieces)) == pieces
  {
    var p := pieces[0];
    if |pieces| == 1 {
      SplitPrefix(p, "");
      assert p + "" == p;
    } else {
      var rest := pieces[1..];
      JoinSplit(rest);
      var tail := "," + Join(rest);
      assert Join(pieces) == p + tail;
      assert tail[0] == ',' && tail[1..] == Join(rest);
      SplitPrefix(p, tail);
      assert Split(tail) == [""] + rest;
      assert p + "" == p && pieces == [p] + rest;
    }
  }

  /** `splitIDs` (main.go:29-34): no ids in the empty text, otherwise the
      comma-separated pieces. */
  function SplitIDs(ids: string): (r: seq<string>)
    ensures r == [] <==> ids == ""
    ensures ids != "" ==> |r| == Commas(ids) + 1 && Join(r) == ids
    ensures forall i :: 0 <= i < |r| ==> ',' !in r[i]
  {
    SplitJoin(ids);
    if ids == "" then [] else Split(ids)
  }

  /** `getToken` (main.go:22-27): the `-t` flag when it is set, otherwise
      the `DISCORD_TOKEN` variable. */
  function GetToken(flag: string, env: string): (token: string)
    ensures flag != "" ==> token == flag
    ensures flag == "" ==> token == env
  {
    if flag != "" then flag else env
  }

  /** `getTestGuildIDs` (main.go:36-41): the ids of the `-test-guild-id`
      flag when it is set, otherwise those of the `TEST_GUILD_ID`
      variable. */
  function GetTestGuildIDs(flag: string, env: string): (ids: seq<string>)
    ensures flag != "" ==> ids == SplitIDs(flag) && ids != [] && Join(ids) == flag
    ensures flag == "" ==> ids == SplitIDs(env)
  {
    if flag != "" then SplitIDs(flag) else SplitIDs(env)
  }

  /** The fallback of main.go:87-91: with no test guild the commands are
      registered once, under the empty guild id (globally). */
  function GuildsToRegister(testGuilds: seq<string>): (guilds: seq<string>)
    ensures |guilds| >= 1
    ensures testGuilds != [] ==> guilds == testGuilds
    ensures testGuilds == [] ==> guilds == [""]
  {
    if |testGuilds| == 0 then testGuilds + [""] else testGuilds
  }
}
