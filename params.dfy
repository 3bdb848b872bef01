/** `GetParams` (`internal/helpers/params.go`): the options of a slash
    command, a tree whose inner nodes are sub-commands and sub-command
    groups, read into a map from option name to option value. */
module Params {

  /** `discordgo.ApplicationCommandOptionSubCommand`. */
  const SUB_COMMAND := 1
  /** `discordgo.ApplicationCommandOptionSubCommandGroup`. */
  const SUB_COMMAND_GROUP := 2

  /** One `ApplicationCommandInteractionDataOption`: its type, name, value
      and nested options. */
  datatype CommandOption<V> = CommandOption(kind: int, name: string, value: V, options: seq<CommandOption<V>>)

  predicate IsSubCommand<V>(o: CommandOption<V>) {
    o.kind == SUB_COMMAND || o.kind == SUB_COMMAND_GROUP
  }

  /** What the loop of params.go:7-16 leaves in the map after reading
      `options`: every option that is not a sub-command, read in order, so
      that a later option overwrites an earlier one of the same name. */
  function ParamsOf<V>(options: seq<CommandOption<V>>): map<string, V> {
    if options == [] then map[]
    else
      var o := options[|options| - 1];
      var params := ParamsOf(options[..|options| - 1]);
      if IsSubCommand(o) then params else params[o.name := o.value]
  }

  /** `GetParams` (params.go:5-18). The map a nested call builds is thrown
      away, as in the source. */
  method GetParams<V>(options: seq<CommandOption<V>>) returns (params: map<string, V>)
    ensures params == ParamsOf(options)
    decreases options
  {
    params := map[];
    for i := 0 to |options|
      invariant params == ParamsOf(options[..i])
    {
      assert options[..i + 1][..i] == options[..i];
      var option := options[i];
      if option.kind == SUB_COMMAND {
        var discarded := GetParams(option.options);
      } else if option.kind == SUB_COMMAND_GROUP {
        var discarded := GetParams(option.options);
      } else {
        params := params[option.name := option.value];
      }
    }
    assert options[..|options|] == options;
  }

  /** The option at `i` is the last top-level option that is not a
      sub-command and has name `name`. */
  predicate LastNamed<V>(options: seq<CommandOption<V>>, name: string, i: int) {
    0 <= i < |options| && !IsSubCommand(options[i]) && options[i].name == name
      && forall j :: i < j < |options| ==> IsSubCommand(options[j]) || options[j].name != name
  }

  /** The names in the map are exactly those of the top-level options that
      are not sub-commands, and each maps to the value of the last such
      option with that name. */
  lemma {:induction false} ParamsOfLastWins<V>(options: seq<CommandOption<V>>)
    ensures forall name :: name in ParamsOf(options) <==>
      exists i :: 0 <= i < |options| && !IsSubCommand(options[i]) && options[i].name == name
    ensures forall name :: name in ParamsOf(options) ==>
      exists i :: LastNamed(options, name, i) && ParamsOf(options)[name] == options[i].value
  {
    if options != [] {
      var init, o := options[..|options| - 1], options[|options| - 1];
      ParamsOfLastWins(init);
      assert options == init + [o];
      forall name | name in ParamsOf(options)
        ensures exists i :: LastNamed(options, name, i) && ParamsOf(options)[name] == options[i].value
      {
        if !IsSubCommand(o) && o.name == name {
          assert LastNamed(options, name, |options| - 1);
        } else {
          assert name in ParamsOf(init) && ParamsOf(options)[name] == ParamsOf(init)[name];
          var i :| LastNamed(init, name, i) && ParamsOf(init)[name] == init[i].value;
          assert LastNamed(options, name, i);
        }
      }
    }
  }

  /** The map is empty exactly when every top-level option is a
      sub-command or a sub-command group; the empty list in particular gives
      an empty map. */
  lemma NoOptionsNoParams<V>(options: seq<CommandOption<V>>)
    ensures ParamsOf(options) == map[] <==> forall i :: 0 <= i < |options| ==> IsSubCommand(options[i])
  {
    ParamsOfLastWins(options);
    if i :| 0 <= i < |options| && !IsSubCommand(options[i]) {
      assert options[i].name in ParamsOf(options);
    } else {
      assert ParamsOf(options).Keys == {};
    }
  }

  /** `options` with every nested option list emptied. */
  function Pruned<V>(options: seq<CommandOption<V>>): (r: seq<CommandOption<V>>)
    ensures |r| == |options|
    ensures forall i :: 0 <= i < |options| ==> r[i] == options[i].(options := [])
  {
    seq(|options|, i requires 0 <= i < |options| => options[i].(options := []))
  }

  /** Options nested under a sub-command or a sub-command group never reach
      the map: it is the same when every nested list is emptied. */
  lemma {:induction false} NestedOptionsIgnored<V>(options: seq<CommandOption<V>>)
    ensures ParamsOf(Pruned(options)) == ParamsOf(options)
  {
    if options != [] {
      var n := |options| - 1;
      NestedOptionsIgnored(options[..n]);
      assert Pruned(options)[..n] == Pruned(options[..n]);
    }
  }
}
