/**
 * The configuration readers (src/importlinter/adapters/user_options.py) from the point where the
 * file has been parsed: INI sections become session and contract options, and the TOML
 * `[tool.importlinter]` table gives up its `contracts` array.
 */
module UserOptionsAdapter {
  import opened Wrappers
  import Strings
  import opened Fields
  import UseCases

  /** The section that holds the session options; contract sections are named `importlinter:<id>`. */
  const SectionName := "importlinter"
  const ContractSectionPrefix := "importlinter:"

  // INI files
  // ---------

  /** The lines of a multi-line value: `value.strip().split("\n")`. */
  function Lines(value: string): seq<string> {
    Strings.Split(Strings.Strip(value), '\n')
  }

  /** Each line as a string value. */
  function Strs(lines: seq<string>): (r: seq<Raw>)
    ensures |r| == |lines| && forall k :: 0 <= k < |lines| ==> r[k] == Str(lines[k])
  {
    seq(|lines|, k requires 0 <= k < |lines| => Str(lines[k]))
  }

  /** A value spanning several lines becomes the list of its lines; any other value is kept as it is. */
  function CleanValue(value: string): Raw {
    if !Strings.Contains(value, "\n") then Str(value) else ListOf(Strs(Lines(value)))
  }

  /** Every option of a section with its value cleaned. */
  function Cleaned(sectionConfig: map<string, string>): UseCases.Options {
    map key | key in sectionConfig :: CleanValue(sectionConfig[key])
  }

  /**
   * The lines of a value contain no line break and, joined again, give the value without its
   * surrounding whitespace.
   */
  lemma {:induction false} LinesSpec(value: string)
    ensures forall k :: 0 <= k < |Lines(value)| ==> !Strings.Contains(Lines(value)[k], "\n")
    ensures Strings.Join(Lines(value), "\n") == Strings.Strip(value)
  {
    Strings.SplitOnPartsFree(Strings.Strip(value), "\n");
    Strings.JoinSplit(Strings.Strip(value), "\n");
  }

  /**
   * `_clean_section_config`: each option of the section is cleaned into the new dictionary
   * (in any order: each key is written once).
   */
  method CleanSectionConfig(sectionConfig: map<string, string>) returns (sectionDict: UseCases.Options)
    ensures sectionDict == Cleaned(sectionConfig)
  {
    sectionDict := map[];
    var remaining := sectionConfig.Keys;
    while remaining != {}
      invariant remaining <= sectionConfig.Keys
      invariant sectionDict.Keys == sectionConfig.Keys - remaining
      invariant forall key :: key in sectionDict ==> sectionDict[key] == CleanValue(sectionConfig[key])
      decreases remaining
    {
      var key :| key in remaining;
      sectionDict := sectionDict[key := CleanValue(sectionConfig[key])];
      remaining := remaining - {key};
    }
  }

  /** A parsed INI file: the section names in file order and each section's options. */
  datatype IniConfig = IniConfig(sections: seq<string>, values: map<string, map<string, string>>)

  /** The cleaned options of the contract sections among `sections`, in order. */
  function ContractSections(config: IniConfig, sections: seq<string>): seq<UseCases.Options>
    requires forall name :: name in sections ==> name in config.values
  {
    if sections == [] then []
    else
      var last := sections[|sections| - 1];
      ContractSections(config, sections[..|sections| - 1])
      + (if Strings.StartsWith(last, ContractSectionPrefix) then [Cleaned(config.values[last])] else [])
  }

  /** Every contract option comes from a section named `importlinter:...`, and each such section gives one. */
  lemma {:induction false} ContractSectionsSpec(config: IniConfig, sections: seq<string>)
    requires forall name :: name in sections ==> name in config.values
    ensures forall o :: o in ContractSections(config, sections) <==>
              exists name :: name in sections && Strings.StartsWith(name, ContractSectionPrefix) && o == Cleaned(config.values[name])
  {
    if sections != [] {
      var n := |sections| - 1;
      ContractSectionsSpec(config, sections[..n]);
      assert sections == sections[..n] + [sections[n]];
      forall o | o in ContractSections(config, sections)
        ensures exists name :: name in sections && Strings.StartsWith(name, ContractSectionPrefix) && o == Cleaned(config.values[name])
      {
        if o !in ContractSections(config, sections[..n]) {
          assert sections[n] in sections;
        }
      }
      forall o | exists name :: name in sections && Strings.StartsWith(name, ContractSectionPrefix) && o == Cleaned(config.values[name])
        ensures o in ContractSections(config, sections)
      {
        var name :| name in sections && Strings.StartsWith(name, ContractSectionPrefix) && o == Cleaned(config.values[name]);
        if name != sections[n] {
          assert name in sections[..n];
        }
      }
    }
  }

  /** The session section is not itself a contract section. */
  lemma {:induction false} SessionSectionIsNoContract()
    ensures !Strings.StartsWith(SectionName, ContractSectionPrefix)
  {
    assert |SectionName| < |ContractSectionPrefix|;
  }

  /**
   * `_build_from_config`: the session options are the cleaned `importlinter` section, and the
   * contract options the cleaned `importlinter:...` sections in file order. The reader calls it
   * only once it has seen the `importlinter` section.
   */
  method BuildFromConfig(config: IniConfig) returns (r: UseCases.UserOptions)
    requires SectionName in config.values
    requires forall name :: name in config.sections ==> name in config.values
    ensures r.sessionOptions == Cleaned(config.values[SectionName])
    ensures r.contractsOptions == ContractSections(config, config.sections)
  {
    var sessionOptions := CleanSectionConfig(config.values[SectionName]);
    var contractOptions: seq<UseCases.Options> := [];
    for i := 0 to |config.sections|
      invariant contractOptions == ContractSections(config, config.sections[..i])
    {
      var sectionName := config.sections[i];
      assert config.sections[..i + 1][..i] == config.sections[..i];
      if Strings.StartsWith(sectionName, ContractSectionPrefix) {
        var cleaned := CleanSectionConfig(config.values[sectionName]);
        contractOptions := contractOptions + [cleaned];
      }
    }
    assert config.sections[..|config.sections|] == config.sections;
    return UseCases.UserOptions(sessionOptions, contractOptions);
  }

  // TOML files
  // ----------

  /** A parsed TOML value: a plain value, an array of tables, or a table. */
  datatype Toml = Leaf(raw: Raw) | TableArray(tables: seq<UseCases.Options>) | Table(entries: map<string, Toml>)

  /** A TOML value as an option value: tables and arrays of tables are carried as text. */
  function OptionValue(t: Toml): Raw {
    match t
    case Leaf(raw) => raw
    case TableArray(_) => Other("<array of tables>")
    case Table(_) => Other("<table>")
  }

  /**
   * Values Python treats as false: an empty string, list or table, and the numbers and boolean
   * whose `str()` is `0`, `0.0`, `-0.0` or `False`.
   */
  predicate Empty(t: Toml) {
    || t == Leaf(Str("")) || t == Leaf(ListOf([])) || t == TableArray([]) || t == Table(map[])
    || (t.Leaf? && t.raw.Other? && t.raw.text in {"0", "0.0", "-0.0", "False"})
  }

  /**
   * The end of the TOML reader's `read_options`: the `[tool.importlinter]` table, or none if it
   * is missing or empty; its `contracts` array becomes the contract options and the other entries
   * the session options. A `tool` or section that is not a table raises `AttributeError`, as
   * `get` and `pop` do on other values.
   */
  function ReadTomlOptions(data: map<string, Toml>): (r: Result<Option<UseCases.UserOptions>>)
    ensures r == Ok(None) <==>
              ("tool" !in data || (data["tool"].Table? &&
                 (SectionName !in data["tool"].entries || Empty(data["tool"].entries[SectionName]))))
    ensures r.Ok? && r.value.Some? ==>
              && data["tool"].Table? && SectionName in data["tool"].entries
              && data["tool"].entries[SectionName].Table?
              && var entries := data["tool"].entries[SectionName].entries;
                 && "contracts" !in r.value.value.sessionOptions
                 && (forall key :: key in r.value.value.sessionOptions <==> key in entries && key != "contracts")
                 && (forall key :: key in r.value.value.sessionOptions ==> r.value.value.sessionOptions[key] == OptionValue(entries[key]))
                 && ("contracts" in entries ==> entries["contracts"].TableArray?)
                 && r.value.value.contractsOptions == (if "contracts" in entries then entries["contracts"].tables else [])
  {
    var tool := if "tool" in data then data["tool"] else Table(map[]);
    if !tool.Table? then Err("AttributeError: 'get'")
    else
      var section := if SectionName in tool.entries then tool.entries[SectionName] else Table(map[]);
      if Empty(section) then Ok(None)
      else if !section.Table? then Err("AttributeError: 'pop'")
      else
        var entries := section.entries;
        if "contracts" in entries && !entries["contracts"].TableArray? then Err("contracts is not an array of tables")
        else
          var contracts := if "contracts" in entries then entries["contracts"].tables else [];
          var rest := entries - {"contracts"};
          Ok(Some(UseCases.UserOptions(map key | key in rest :: OptionValue(rest[key]), contracts)))
  }

  /** Writing session options and contracts into `[tool.importlinter]` and reading them back gives them again. */
  lemma {:induction false} TomlRoundTrip(session: map<string, Raw>, contracts: seq<UseCases.Options>)
    requires "contracts" !in session
    requires session != map[] || contracts != []
    ensures var entries := (map key | key in session :: Leaf(session[key]))["contracts" := TableArray(contracts)];
            ReadTomlOptions(map["tool" := Table(map[SectionName := Table(entries)])])
            == Ok(Some(UseCases.UserOptions(session, contracts)))
  {
    var entries := (map key | key in session :: Leaf(session[key]))["contracts" := TableArray(contracts)];
    assert "contracts" in entries;
    var r := ReadTomlOptions(map["tool" := Table(map[SectionName := Table(entries)])]);
    var rest := entries - {"contracts"};
    assert (map key | key in rest :: OptionValue(rest[key])) == session;
  }
}
