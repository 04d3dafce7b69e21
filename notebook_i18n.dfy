/** The i18n directive check and cell rewrite of NotebookDef.update_command.

    A Markdown cell of an exported notebook starts with a line "{L} MAGIC %md ..." or
    "{L} MAGIC %md-sandbox ...", where {L} is the comment leader of the notebook's language.
    With i18n enabled, that first line must carry exactly one GUID after the marker; a GUID
    may be used once per pass (StateVariables keeps the GUIDs consumed so far), and an accepted
    cell is rewritten to "{L} DBTITLE 0,{guid}", then "{L} MAGIC {marker}", then the text the
    GUID maps to. Every rejected cell adds one "Cmd #{i+1} | ..." error to its notebook. */
module NotebookI18n {
  import opened Wrappers
  import opened Text

  /** The two notebook languages, each with its comment leader. */
  datatype Language = Python | SQL

  function Leader(lang: Language): string {
    match lang
    case Python => "#"
    case SQL => "--"
  }

  /** "{L} MAGIC ", the prefix of every line of a magic (non-code) cell. */
  function MagicPrefix(lang: Language): string {
    Leader(lang) + " MAGIC "
  }

  /** The two Markdown markers that make a cell subject to the i18n check. */
  predicate IsMarker(w: string) {
    w == "%md" || w == "%md-sandbox"
  }

  /** "Cmd #{i+1} | ": the position label that starts every error message. */
  function CmdLabel(i: nat): string {
    "Cmd #" + NatToString(i + 1) + " | "
  }

  /** The text an accepted cell is rewritten to. */
  function Rewrite(lang: Language, guid: string, marker: string, body: string): string {
    Leader(lang) + " DBTITLE 0," + guid + "\n" + MagicPrefix(lang) + marker + "\n" + body
  }

  /** What the check decides about one cell. A rejection carries the reason, which the
      notebook records after the cell's "Cmd #{i+1} | " label. UnknownGuid (a well-formed,
      unused GUID that is not a key of the map) is a case whose outcome this model leaves open. */
  datatype Verdict =
    | NotDirective
    | Rejected(reason: string)
    | UnknownGuid(guid: string)
    | Accepted(guid: string, text: string)

  /** The decision update_command makes for one cell, given the GUID map and the GUIDs consumed so far. */
  function Check(lang: Language, command: string, guidMap: map<string, string>, consumed: set<string>): Verdict
  {
    var lines := Split(command, '\n');
    var prefix := MagicPrefix(lang);
    if !StartsWith(lines[0], prefix) then NotDirective
    else
      var rest := lines[0][|prefix|..];
      var words := Words(rest);
      if |words| == 0 || !IsMarker(words[0]) then NotDirective
      else if |lines| == 1 then
        Rejected("Expected MD to have more than 1 line of code with i18n enabled: " + rest)
      else if |words| == 1 then
        Rejected("Missing the i18n directive: " + words[0])
      else if |words| > 2 then
        Rejected("Expected the first line of MD to have only two words, found " + NatToString(|words|) + ": " + rest)
      else if words[1] in consumed then
        Rejected("Duplicate i18n GUID found: " + words[1])
      else if words[1] !in guidMap then
        UnknownGuid(words[1])
      else
        Accepted(words[1], Rewrite(lang, words[1], words[0], guidMap[words[1]]))
  }

  /** The state shared by every cell of one build pass: the GUID-to-text map and the GUIDs consumed. */
  class StateVariables {
    var i18nGuidMap: map<string, string>
    var consumedGuids: set<string>

    constructor ()
      ensures i18nGuidMap == map[] && consumedGuids == {}
    {
      i18nGuidMap := map[];
      consumedGuids := {};
    }
  }

  /** One notebook of the build, with the diagnostics and GUIDs its cells produce. */
  class NotebookDef {
    const path: string
    var errors: seq<string>
    var warnings: seq<string>
    var i18nGuids: seq<string>

    constructor (path: string)
      ensures this.path == path
      ensures errors == [] && warnings == [] && i18nGuids == []
    {
      this.path := path;
      errors := [];
      warnings := [];
      i18nGuids := [];
    }

    /** The notebook's GUIDs are distinct and all recorded as consumed in the pass state. */
    ghost predicate Consistent(state: StateVariables)
      reads this, state
    {
      && (forall j, k :: 0 <= j < k < |i18nGuids| ==> i18nGuids[j] != i18nGuids[k])
      && (forall j :: 0 <= j < |i18nGuids| ==> i18nGuids[j] in state.consumedGuids)
    }


    /** update_command on cell i: returns the cell's new text, appends at most one
        "Cmd #{i+1} | ..." error, and on acceptance records the GUID in the notebook and in the
        pass state. A well-formed, unused GUID missing from the map is left open: the contract
        only keeps the earlier errors and records no GUID. */
    method UpdateCommand(state: StateVariables, lang: Language, command: string, i: nat) returns (r: Option<string>)
      modifies this`errors, this`i18nGuids, state`consumedGuids
      ensures old(Consistent(state)) ==> Consistent(state)
      ensures match Check(lang, command, state.i18nGuidMap, old(state.consumedGuids))
        case NotDirective =>
          && r == Some(command) && errors == old(errors)
          && i18nGuids == old(i18nGuids) && state.consumedGuids == old(state.consumedGuids)
        case Rejected(reason) =>
          && r == Some(command) && errors == old(errors) + [CmdLabel(i) + reason]
          && i18nGuids == old(i18nGuids) && state.consumedGuids == old(state.consumedGuids)
        case UnknownGuid(_) =>
          && |old(errors)| <= |errors| && errors[..|old(errors)|] == old(errors)
          && i18nGuids == old(i18nGuids) && state.consumedGuids == old(state.consumedGuids)
        case Accepted(guid, text) =>
          && r == Some(text) && errors == old(errors)
          && i18nGuids == old(i18nGuids) + [guid] && state.consumedGuids == old(state.consumedGuids) + {guid}
    {
      var lines := Split(command, '\n');
      var prefix := MagicPrefix(lang);
      r := Some(command);
      if StartsWith(lines[0], prefix) {
        var rest := lines[0][|prefix|..];
        var words := Words(rest);
        if |words| > 0 && IsMarker(words[0]) {
          var cmd := CmdLabel(i);
          if |lines| == 1 {
            errors := errors + [cmd + ("Expected MD to have more than 1 line of code with i18n enabled: " + rest)];
          } else if |words| == 1 {
            errors := errors + [cmd + ("Missing the i18n directive: " + words[0])];
          } else if |words| > 2 {
            errors := errors + [cmd + ("Expected the first line of MD to have only two words, found "
                                       + NatToString(|words|) + ": " + rest)];
          } else {
            var guid := words[1];
            if guid in state.consumedGuids {
              errors := errors + [cmd + ("Duplicate i18n GUID found: " + guid)];
            } else if guid in state.i18nGuidMap {
              i18nGuids := i18nGuids + [guid];
              state.consumedGuids := state.consumedGuids + {guid};
              r := Some(Rewrite(lang, guid, words[0], state.i18nGuidMap[guid]));
            }
          }
        }
      }
    }
  }

  // ---------------------------------------------------------------------------
  // Properties of the check
  // ---------------------------------------------------------------------------

  lemma MarkerIsWord(marker: string)
    requires IsMarker(marker)
    ensures IsWord(marker) && '\n' !in marker
  {
  }

  /** The first line of "{first}\n{body}" is first, and the cell has more than one line. */
  lemma FirstLineOf(first: string, body: string)
    requires '\n' !in first
    ensures Split(first + "\n" + body, '\n')[0] == first
    ensures |Split(first + "\n" + body, '\n')| > 1
  {
    SplitAtFirst(first, body, '\n');
  }

  /** The rest of a directive line after "{L} MAGIC ". */
  lemma AfterPrefix(lang: Language, rest: string)
    ensures StartsWith(MagicPrefix(lang) + rest, MagicPrefix(lang))
    ensures (MagicPrefix(lang) + rest)[|MagicPrefix(lang)|..] == rest
    ensures '\n' !in rest ==> '\n' !in MagicPrefix(lang) + rest
  {
    var p := MagicPrefix(lang);
    assert (p + rest)[..|p|] == p;
  }

  /** "{marker}{gap}{guid}" has exactly the two words marker and guid, however wide the gap. */
  lemma WordsOfDirective(marker: string, gap: string, guid: string)
    requires IsWord(marker) && IsWord(guid)
    requires gap != [] && AllSpace(gap)
    ensures Words(marker + gap + guid) == [marker, guid]
  {
    assert marker + gap + guid == marker + (gap + guid);
    assert (gap + guid)[0] == gap[0];
    WordsAfterWord(marker, gap + guid);
    WordsAfterSpace(gap, guid);
    WordsAfterWord(guid, []);
    assert guid + [] == guid;
  }

  /** The first line and word split of a well-formed directive cell. */
  lemma DirectiveCell(lang: Language, marker: string, gap: string, guid: string, body: string)
    requires IsMarker(marker) && IsWord(guid)
    requires gap != [] && AllSpace(gap) && '\n' !in gap
    ensures var lines := Split(MagicPrefix(lang) + marker + gap + guid + "\n" + body, '\n');
            && |lines| > 1 && StartsWith(lines[0], MagicPrefix(lang))
            && lines[0][|MagicPrefix(lang)|..] == marker + gap + guid
            && Words(marker + gap + guid) == [marker, guid]
  {
    MarkerIsWord(marker);
    WordHasNoNewline(guid);
    var rest := marker + gap + guid;
    assert '\n' !in rest;
    AfterPrefix(lang, rest);
    assert MagicPrefix(lang) + marker + gap + guid == MagicPrefix(lang) + rest;
    FirstLineOf(MagicPrefix(lang) + rest, body);
    WordsOfDirective(marker, gap, guid);
  }

  /** A multi-line cell "{L} MAGIC {marker}{gap}{guid}" with a mapped, unused GUID is accepted
      (a gap of several spaces is accepted too) and rewritten with the GUID in a DBTITLE line. */
  lemma AcceptsMappedGuid(lang: Language, marker: string, gap: string, guid: string, body: string,
                          guidMap: map<string, string>, consumed: set<string>)
    requires IsMarker(marker) && IsWord(guid)
    requires gap != [] && AllSpace(gap) && '\n' !in gap
    requires guid in guidMap && guid !in consumed
    ensures Check(lang, MagicPrefix(lang) + marker + gap + guid + "\n" + body, guidMap, consumed)
            == Accepted(guid, Rewrite(lang, guid, marker, guidMap[guid]))
  {
    DirectiveCell(lang, marker, gap, guid, body);
  }

  /** A well-formed directive whose GUID was already consumed in this pass is rejected as a duplicate. */
  lemma RejectsDuplicateGuid(lang: Language, marker: string, gap: string, guid: string, body: string,
                             guidMap: map<string, string>, consumed: set<string>)
    requires IsMarker(marker) && IsWord(guid)
    requires gap != [] && AllSpace(gap) && '\n' !in gap
    requires guid in consumed
    ensures Check(lang, MagicPrefix(lang) + marker + gap + guid + "\n" + body, guidMap, consumed)
            == Rejected("Duplicate i18n GUID found: " + guid)
  {
    DirectiveCell(lang, marker, gap, guid, body);
  }

  /** A multi-line cell whose first line is the bare marker is rejected as missing its GUID. */
  lemma RejectsMissingGuid(lang: Language, marker: string, body: string,
                           guidMap: map<string, string>, consumed: set<string>)
    requires IsMarker(marker)
    ensures Check(lang, MagicPrefix(lang) + marker + "\n" + body, guidMap, consumed)
            == Rejected("Missing the i18n directive: " + marker)
  {
    MarkerIsWord(marker);
    AfterPrefix(lang, marker);
    FirstLineOf(MagicPrefix(lang) + marker, body);
    WordsAfterWord(marker, []);
    assert marker + [] == marker;
  }

  /** A single-line directive cell is rejected for having no body, whatever else its line holds
      (extra words, or a GUID that is not in the map). */
  lemma RejectsSingleLine(lang: Language, rest: string, guidMap: map<string, string>, consumed: set<string>)
    requires '\n' !in rest
    requires Words(rest) != [] && IsMarker(Words(rest)[0])
    ensures Check(lang, MagicPrefix(lang) + rest, guidMap, consumed)
            == Rejected("Expected MD to have more than 1 line of code with i18n enabled: " + rest)
  {
    AfterPrefix(lang, rest);
    SplitSingle(MagicPrefix(lang) + rest, '\n');
  }

  /** A multi-line cell whose first line has more than two words is rejected with the word count,
      which counts every word after "{L} MAGIC ", the marker included. */
  lemma RejectsExtraWords(lang: Language, rest: string, body: string, guidMap: map<string, string>, consumed: set<string>)
    requires '\n' !in rest
    requires |Words(rest)| > 2 && IsMarker(Words(rest)[0])
    ensures Check(lang, MagicPrefix(lang) + rest + "\n" + body, guidMap, consumed)
            == Rejected("Expected the first line of MD to have only two words, found "
                        + NatToString(|Words(rest)|) + ": " + rest)
  {
    AfterPrefix(lang, rest);
    FirstLineOf(MagicPrefix(lang) + rest, body);
  }

  /** A cell whose first line does not start with "{L} MAGIC " followed by a marker word is
      left alone; in particular a code cell of the notebook's language never is a directive. */
  lemma NonMarkdownIsNotDirective(lang: Language, command: string, guidMap: map<string, string>, consumed: set<string>)
    requires var first := Split(command, '\n')[0];
             !StartsWith(first, MagicPrefix(lang))
             || var ws := Words(first[|MagicPrefix(lang)|..]); ws == [] || !IsMarker(ws[0])
    ensures Check(lang, command, guidMap, consumed) == NotDirective
  {
  }

  /** Only an unused GUID that the map knows is accepted, and only in a cell of more than one line. */
  lemma AcceptedIsValid(lang: Language, command: string, guidMap: map<string, string>, consumed: set<string>)
    requires Check(lang, command, guidMap, consumed).Accepted?
    ensures var v := Check(lang, command, guidMap, consumed);
            v.guid in guidMap && v.guid !in consumed && '\n' in command
  {
    SplitSingle(command, '\n');
  }

  /** The number shown in "Cmd #{n} | {reason}" reads back as the supplied position i plus one. */
  lemma LabelReadsBack(i: nat, reason: string)
    ensures var m := CmdLabel(i) + reason;
            var d := NatToString(i + 1);
            && m[..5] == "Cmd #" && m[5..5 + |d|] == d && m[5 + |d|..8 + |d|] == " | "
            && m[8 + |d|..] == reason && ParseNat(m[5..5 + |d|]) == i + 1
  {
    var d := NatToString(i + 1);
    var m := CmdLabel(i) + reason;
    assert m == "Cmd #" + d + " | " + reason;
    ParseNatToString(i + 1);
  }

  /** The rewritten cell starts with the DBTITLE line and the bare marker line, then the mapped text. */
  lemma RewriteLines(lang: Language, guid: string, marker: string, body: string)
    requires IsMarker(marker) && '\n' !in guid
    ensures Split(Rewrite(lang, guid, marker, body), '\n')
            == [Leader(lang) + " DBTITLE 0," + guid, MagicPrefix(lang) + marker] + Split(body, '\n')
  {
    var title := Leader(lang) + " DBTITLE 0," + guid;
    var magic := MagicPrefix(lang) + marker;
    MarkerIsWord(marker);
    assert '\n' !in title;
    assert '\n' !in magic;
    assert Rewrite(lang, guid, marker, body) == title + "\n" + (magic + "\n" + body);
    SplitAtFirst(title, magic + "\n" + body, '\n');
    SplitAtFirst(magic, body, '\n');
  }

  /** A rewritten cell is no longer a directive cell: a second pass leaves it alone. */
  lemma RewriteIsNotDirective(lang: Language, guid: string, marker: string, body: string,
                              guidMap: map<string, string>, consumed: set<string>)
    requires IsMarker(marker) && '\n' !in guid
    ensures Check(lang, Rewrite(lang, guid, marker, body), guidMap, consumed) == NotDirective
  {
    RewriteLines(lang, guid, marker, body);
    var title := Leader(lang) + " DBTITLE 0," + guid;
    var p := MagicPrefix(lang);
    var n := |Leader(lang)| + 1;
    assert title[n] == 'D' && p[n] == 'M';
    if |p| <= |title| {
      assert title[..|p|][n] == 'D';
    }
    assert !StartsWith(title, p);
  }

  // ---------------------------------------------------------------------------
  // The unit tests of the i18n body check, one scenario each
  // ---------------------------------------------------------------------------

  /** A fresh notebook and pass state with the given map, run on one cell, as each test does. */
  method RunOnce(lang: Language, command: string, i: nat, guidMap: map<string, string>)
    returns (r: Option<string>, errors: seq<string>, warnings: seq<string>, guids: seq<string>)
    ensures warnings == []
    ensures match Check(lang, command, guidMap, {})
      case NotDirective => r == Some(command) && errors == [] && guids == []
      case Rejected(reason) => r == Some(command) && errors == [CmdLabel(i) + reason] && guids == []
      case UnknownGuid(_) => guids == []
      case Accepted(guid, text) => r == Some(text) && errors == [] && guids == [guid]
  {
    var state := new StateVariables();
    state.i18nGuidMap := guidMap;
    var notebook := new NotebookDef("Agenda");
    r := notebook.UpdateCommand(state, lang, command, i);
    errors, warnings, guids := notebook.errors, notebook.warnings, notebook.i18nGuids;
  }

  const TbdGuid := "--i18n-TBD"
  const TbdBody := "# MAGIC \n# MAGIC # Build-Time Substitutions"
  const GuidA := "--i18n-a6e39b59-1715-4750-bd5d-5d638cf57c3a"
  const GuidB := "--i18n-9d06d80d-2381-42d5-8f9e-cc99ee3cd82a"

  /** test_good_single_space_i18n, test_good_double_spaced_i18n and test_good_md_sandbox_i18n:
      "%md" or "%md-sandbox", one or two spaces, a mapped GUID: no diagnostics, one GUID recorded. */
  method GoodDirectiveScenario(marker: string, gap: string) returns (errors: seq<string>, warnings: seq<string>, guids: seq<string>)
    requires IsMarker(marker) && (gap == " " || gap == "  ")
    ensures errors == [] && warnings == [] && guids == [TbdGuid]
  {
    var command := MagicPrefix(Python) + marker + gap + TbdGuid + "\n" + TbdBody;
    assert IsWord(TbdGuid);
    AcceptsMappedGuid(Python, marker, gap, TbdGuid, TbdBody, map[TbdGuid := "whatever"], {});
    var text;
    text, errors, warnings, guids := RunOnce(Python, command, 3, map[TbdGuid := "whatever"]);
  }

  /** test_missing_i18n_multi: a bare "%md" line over a body. */
  method MissingMultiScenario() returns (errors: seq<string>, warnings: seq<string>)
    ensures warnings == []
    ensures errors == ["Cmd #4 | " + ("Missing the i18n directive: " + "%md")]
  {
    RejectsMissingGuid(Python, "%md", TbdBody, map[TbdGuid := "whatever"], {});
    var text, guids;
    text, errors, warnings, guids := RunOnce(Python, MagicPrefix(Python) + "%md" + "\n" + TbdBody, 3, map[TbdGuid := "whatever"]);
    LabelOf(3);
  }

  /** test_missing_i18n_single: a one-line cell is rejected before its words are looked at. */
  method MissingSingleScenario() returns (errors: seq<string>, warnings: seq<string>)
    ensures warnings == []
    ensures errors == ["Cmd #4 | " + ("Expected MD to have more than 1 line of code with i18n enabled: "
                                       + Join(["%md", "|", "#", "Build-Time", "Substitutions"], " "))]
  {
    var ws := ["%md", "|", "#", "Build-Time", "Substitutions"];
    var rest := Join(ws, " ");
    LineOfWords(ws);
    RejectsSingleLine(Python, rest, map[TbdGuid := "whatever"], {});
    var text, guids;
    text, errors, warnings, guids := RunOnce(Python, MagicPrefix(Python) + rest, 3, map[TbdGuid := "whatever"]);
    LabelOf(3);
  }

  /** Words joined by single spaces read back as the same words, on one line. */
  lemma LineOfWords(ws: seq<string>)
    requires forall k :: 0 <= k < |ws| ==> IsWord(ws[k])
    ensures Words(Join(ws, " ")) == ws && '\n' !in Join(ws, " ")
  {
    WordsOfJoin(ws);
    JoinedWordsAreOneLine(ws);
  }

  /** The label of the cells at positions 3 and 4, which the scenarios below use. */
  lemma LabelOf(i: nat)
    requires i == 3 || i == 4
    ensures i == 3 ==> CmdLabel(i) == "Cmd #4 | "
    ensures i == 4 ==> CmdLabel(i) == "Cmd #5 | "
  {
  }

  /** test_extra_word_i18n: four words on the directive line. */
  method ExtraWordScenario() returns (errors: seq<string>, warnings: seq<string>)
    ensures warnings == []
    ensures errors == ["Cmd #4 | " + ("Expected the first line of MD to have only two words, found " + "4" + ": "
                                       + Join(["%md", TbdGuid, "#", "Title"], " "))]
  {
    var ws := ["%md", TbdGuid, "#", "Title"];
    var rest := Join(ws, " ");
    LineOfWords(ws);
    RejectsExtraWords(Python, rest, TbdBody, map[TbdGuid := "whatever"], {});
    var text, guids;
    text, errors, warnings, guids := RunOnce(Python, MagicPrefix(Python) + rest + "\n" + TbdBody, 3, map[TbdGuid := "whatever"]);
    LabelOf(3);
    assert NatToString(4) == "4";
  }

  /** test_duplicate_i18n_guid and test_unique_i18n_guid, each with its own GUID map: two cells
      processed with one state and one notebook; the second is rejected exactly when it repeats
      the first one's GUID. */
  method TwoCellsScenario(secondGuid: string) returns (errors: seq<string>, warnings: seq<string>, guids: seq<string>)
    requires secondGuid == GuidA || secondGuid == GuidB
    ensures warnings == []
    ensures secondGuid == GuidA ==> errors == ["Cmd #5 | " + ("Duplicate i18n GUID found: " + GuidA)] && guids == [GuidA]
    ensures secondGuid == GuidB ==> errors == [] && guids == [GuidA, GuidB]
  {
    var title := "# MAGIC # Some Title";
    var guidMap := if secondGuid == GuidA then map[GuidA := "whatever"] else map[GuidA := title, GuidB := title];
    var state := new StateVariables();
    state.i18nGuidMap := guidMap;
    var notebook := new NotebookDef("Agenda");
    DistinctGuids();
    AcceptsMappedGuid(Python, "%md", " ", GuidA, title, guidMap, {});
    var text := notebook.UpdateCommand(state, Python, MagicPrefix(Python) + "%md" + " " + GuidA + "\n" + title, 3);
    if secondGuid == GuidA {
      RejectsDuplicateGuid(Python, "%md", " ", GuidA, title, guidMap, {GuidA});
    } else {
      AcceptsMappedGuid(Python, "%md", " ", GuidB, title, guidMap, {GuidA});
    }
    text := notebook.UpdateCommand(state, Python, MagicPrefix(Python) + "%md" + " " + secondGuid + "\n" + title, 4);
    errors, warnings, guids := notebook.errors, notebook.warnings, notebook.i18nGuids;
    LabelOf(4);
  }

  /** The two GUIDs of the scenarios are single words and differ. */
  lemma DistinctGuids()
    ensures IsWord(GuidA) && IsWord(GuidB) && GuidA != GuidB
  {
    assert GuidA[7] != GuidB[7];
  }

  /** test_md_i18n_guid_replacement, test_md_sandbox_i18n_guid_replacement and test_i18n_sql:
      the rewritten text of a cell whose mapped text equals its body. */
  method ReplacementScenario(lang: Language, marker: string)
    returns (actual: Option<string>, errors: seq<string>, warnings: seq<string>)
    requires IsMarker(marker)
    ensures errors == [] && warnings == []
    ensures actual == Some(Leader(lang) + " DBTITLE 0," + GuidA + "\n"
                           + Leader(lang) + " MAGIC " + marker + "\n"
                           + Leader(lang) + " MAGIC " + "# Some Title")
  {
    var body := MagicPrefix(lang) + "# Some Title";
    DistinctGuids();
    AcceptsMappedGuid(lang, marker, " ", GuidA, body, map[GuidA := body], {});
    var guids;
    actual, errors, warnings, guids := RunOnce(lang, MagicPrefix(lang) + marker + " " + GuidA + "\n" + body, 4, map[GuidA := body]);
    ReplacementText(lang, marker);
  }

  lemma ReplacementText(lang: Language, marker: string)
    ensures Rewrite(lang, GuidA, marker, MagicPrefix(lang) + "# Some Title")
            == Leader(lang) + " DBTITLE 0," + GuidA + "\n"
               + Leader(lang) + " MAGIC " + marker + "\n"
               + Leader(lang) + " MAGIC " + "# Some Title"
  {
    var l := Leader(lang);
    assert MagicPrefix(lang) == l + " MAGIC ";
  }

  /** test_i18n_single_line: a single SQL line with an unmapped GUID and extra words. */
  method SqlSingleLineScenario() returns (errors: seq<string>, warnings: seq<string>)
    ensures warnings == []
    ensures errors == ["Cmd #5 | " + ("Expected MD to have more than 1 line of code with i18n enabled: "
                                       + Join(["%md", GuidA, "#", "Some", "Title"], " "))]
  {
    var ws := ["%md", GuidA, "#", "Some", "Title"];
    var rest := Join(ws, " ");
    DistinctGuids();
    LineOfWords(ws);
    RejectsSingleLine(SQL, rest, map[TbdGuid := "whatever"], {});
    var text, guids;
    text, errors, warnings, guids := RunOnce(SQL, MagicPrefix(SQL) + rest, 4, map[TbdGuid := "whatever"]);
    LabelOf(4);
  }
}
