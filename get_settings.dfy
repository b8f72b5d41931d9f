/** Reading the add-in's settings from the workbook (`GetSettings`). The
    "Settings" sheet holds the replacement table (columns D and E from row 2),
    the common phrases (column F from row 2), the selected languages (B3, B4),
    the voice and gender (B5), the SSML "say-as" hint (B6) and the credentials
    path (H4). The "Languages" sheet maps language names (column A) to language
    codes (column B). Cell values are taken as text already, with `None` for an
    empty cell. */
module Settings {
  import opened Host
  import Strings

  /** A worksheet: the cells of each column from row 1 down. Cells below the
      end of a column, and cells of a column that is absent, are empty. */
  datatype Sheet = Sheet(columns: map<char, seq<Option<string>>>)

  /** A workbook: its sheets by name; `wb.Sheets(name)` raises for a missing name. */
  datatype Workbook = Workbook(sheets: map<string, Sheet>)

  /** `ws.Range(column + str(row)).Value`. */
  function Cell(ws: Sheet, column: char, row: int): Option<string>
  {
    if column in ws.columns && 1 <= row <= |ws.columns[column]| then ws.columns[column][row - 1] else None
  }

  /** The number of rows stored for `column`; every cell below is empty. */
  function Height(ws: Sheet, column: char): nat
  {
    if column in ws.columns then |ws.columns[column]| else 0
  }

  /** Only the stored rows of a column hold values: a cell above row 1 or below
      the column's height is empty, which is why every row scan ends. */
  lemma CellsOutsideAreEmpty(ws: Sheet, column: char, row: int)
    requires row < 1 || row > Height(ws, column)
    ensures Cell(ws, column, row) == None
  {
  }

  /** Python's `str()` of a cell value: an empty cell prints as "None". */
  function Str(value: Option<string>): (r: string)
  {
    match value
    case None => "None"
    case Some(s) => s
  }

  /** An empty cell and a cell holding the text "None" print alike, so the
      `str()` comparisons of the language lookup cannot tell them apart. */
  lemma StrPrintsNone(value: Option<string>)
    ensures Str(value) == "None" <==> value == None || value == Some("None")
  {
  }

  /** `s.replace('"', '')`. */
  function Unquote(s: string): (r: string)
    ensures '"' !in r
  {
    Strings.RemoveChar(s, '"')
  }

  // ---------------------------------------------------------------------------
  // Language code lookup

  /** The lookup stops at `row`: its A text equals the selected language (both
      as `str()`), or its A or B cell is empty. */
  predicate LanguageRowStops(ws: Sheet, selected: Option<string>, row: int)
  {
    Str(selected) == Str(Cell(ws, 'A', row)) || Cell(ws, 'A', row).None? || Cell(ws, 'B', row).None?
  }

  /** The first row from `row` on at which the lookup stops. */
  function LanguageStop(ws: Sheet, selected: Option<string>, row: nat): (k: nat)
    ensures k >= row
    ensures LanguageRowStops(ws, selected, k)
    ensures forall r :: row <= r < k ==> !LanguageRowStops(ws, selected, r)
    decreases Height(ws, 'A') + 1 - row
  {
    if LanguageRowStops(ws, selected, row) then row else LanguageStop(ws, selected, row + 1)
  }

  /** `__getLanguageCode`: scan the "Languages" sheet from row 1 and return the
      B value of the row where the scan stops, which is the code of the first
      matching row when no earlier row has an empty cell. A missing "Languages"
      sheet raises; the exception goes to the hook and the result is `None`. */
  method LanguageCode(wb: Workbook, selected: Option<string>) returns (code: Option<string>, hooked: bool)
    ensures "Languages" !in wb.sheets ==> code == None && hooked
    ensures "Languages" in wb.sheets ==>
              var ws := wb.sheets["Languages"];
              !hooked && code == Cell(ws, 'B', LanguageStop(ws, selected, 1))
  {
    if "Languages" !in wb.sheets {
      return None, true;
    }
    var ws := wb.sheets["Languages"];
    var language := Cell(ws, 'A', 1);
    var languageCode := Cell(ws, 'B', 1);
    var found := Str(selected) == Str(language);
    var row := 2;
    while !found && language.Some? && languageCode.Some?
      invariant row >= 2
      invariant language == Cell(ws, 'A', row - 1) && languageCode == Cell(ws, 'B', row - 1)
      invariant found == (Str(selected) == Str(language))
      invariant forall r :: 1 <= r < row - 1 ==> !LanguageRowStops(ws, selected, r)
      decreases Height(ws, 'A') + 1 - row
    {
      language := Cell(ws, 'A', row);
      languageCode := Cell(ws, 'B', row);
      found := Str(selected) == Str(language);
      row := row + 1;
    }
    assert LanguageRowStops(ws, selected, row - 1);
    assert LanguageStop(ws, selected, 1) == row - 1;
    return languageCode, false;
  }

  /** A row whose A text matches, with every row above it complete and not
      matching, is the row whose code the lookup returns. */
  lemma LanguageFirstMatch(ws: Sheet, selected: Option<string>, m: nat)
    requires m >= 1 && Str(selected) == Str(Cell(ws, 'A', m))
    requires forall r :: 1 <= r < m ==> !LanguageRowStops(ws, selected, r)
    ensures LanguageStop(ws, selected, 1) == m
  {
    assert LanguageRowStops(ws, selected, m);
  }

  // ---------------------------------------------------------------------------
  // Replacement dictionary

  /** The replacement table ends at `row`: its D or E cell is empty. */
  predicate ReplacementRowStops(ws: Sheet, row: int)
  {
    Cell(ws, 'D', row).None? || Cell(ws, 'E', row).None?
  }

  /** The first row from `row` on where the replacement table ends. */
  function ReplacementStop(ws: Sheet, row: nat): (k: nat)
    ensures k >= row
    ensures ReplacementRowStops(ws, k)
    ensures forall r :: row <= r < k ==> !ReplacementRowStops(ws, r)
    decreases Height(ws, 'D') + 1 - row
  {
    if ReplacementRowStops(ws, row) then row else ReplacementStop(ws, row + 1)
  }

  /** The key and the value of a complete replacement row, quotes removed. */
  function Key(ws: Sheet, row: int): string
    requires !ReplacementRowStops(ws, row)
  {
    Unquote(Cell(ws, 'D', row).value)
  }

  function Value(ws: Sheet, row: int): string
    requires !ReplacementRowStops(ws, row)
  {
    Unquote(Cell(ws, 'E', row).value)
  }

  /** The dictionary after inserting rows `lo` to `hi - 1`, in row order. */
  function Replacements(ws: Sheet, lo: int, hi: int): (dict: map<string, string>)
    requires forall r :: lo <= r < hi ==> !ReplacementRowStops(ws, r)
    decreases hi - lo
  {
    if hi <= lo then map[] else Replacements(ws, lo, hi - 1)[Key(ws, hi - 1) := Value(ws, hi - 1)]
  }

  /** The dictionary has at most one entry per row inserted. */
  lemma {:induction false} ReplacementsSize(ws: Sheet, lo: int, hi: int)
    requires forall r :: lo <= r < hi ==> !ReplacementRowStops(ws, r)
    ensures |Replacements(ws, lo, hi)| <= if hi <= lo then 0 else hi - lo
    decreases hi - lo
  {
    if hi > lo {
      ReplacementsSize(ws, lo, hi - 1);
    }
  }

  /** The dictionary holds exactly the keys of the rows inserted. */
  lemma {:induction false} ReplacementKeys(ws: Sheet, lo: int, hi: int)
    requires forall r :: lo <= r < hi ==> !ReplacementRowStops(ws, r)
    ensures forall k :: k in Replacements(ws, lo, hi) <==> exists r :: lo <= r < hi && Key(ws, r) == k
    decreases hi - lo
  {
    if hi > lo {
      ReplacementKeys(ws, lo, hi - 1);
      var prev := Replacements(ws, lo, hi - 1);
      var m := Replacements(ws, lo, hi);
      assert m == prev[Key(ws, hi - 1) := Value(ws, hi - 1)];
      forall k ensures k in m <==> exists r :: lo <= r < hi && Key(ws, r) == k {
        if k in prev {
          var r :| lo <= r < hi - 1 && Key(ws, r) == k;
          assert lo <= r < hi;
        }
        if exists r :: lo <= r < hi && Key(ws, r) == k {
          var r :| lo <= r < hi && Key(ws, r) == k;
          if r < hi - 1 {
            assert k in prev;
          }
        }
      }
    }
  }

  /** Each key maps to the value of the last row with that key: a later
      duplicate overwrites an earlier one. */
  lemma {:induction false} ReplacementsLastWins(ws: Sheet, lo: int, hi: int)
    requires forall r :: lo <= r < hi ==> !ReplacementRowStops(ws, r)
    ensures forall r :: lo <= r < hi && (forall r' :: r < r' < hi ==> Key(ws, r') != Key(ws, r)) ==>
              Key(ws, r) in Replacements(ws, lo, hi) && Replacements(ws, lo, hi)[Key(ws, r)] == Value(ws, r)
    decreases hi - lo
  {
    if hi > lo {
      ReplacementsLastWins(ws, lo, hi - 1);
      var prev := Replacements(ws, lo, hi - 1);
      var m := Replacements(ws, lo, hi);
      var last := Key(ws, hi - 1);
      assert m == prev[last := Value(ws, hi - 1)];
      forall r | lo <= r < hi && (forall r' :: r < r' < hi ==> Key(ws, r') != Key(ws, r))
        ensures Key(ws, r) in m && m[Key(ws, r)] == Value(ws, r)
      {
        if r < hi - 1 {
          assert Key(ws, r) != last;
          assert forall r' :: r < r' < hi - 1 ==> Key(ws, r') != Key(ws, r);
        }
      }
    }
  }

  /** The replacement-table part of `__getSettingsFromExcel`. From row 2 on,
      each row enters the dictionary, quotes removed, until the first row whose
      D or E cell is empty. An empty D2 leaves `keyString` unbound, and the
      test of it raises (`ok` false) before anything is inserted. */
  method ReadReplacements(ws: Sheet) returns (dict: map<string, string>, ok: bool)
    ensures Cell(ws, 'D', 2).None? ==> !ok && dict == map[]
    ensures Cell(ws, 'D', 2).Some? ==> ok && dict == Replacements(ws, 2, ReplacementStop(ws, 2))
  {
    dict := map[];
    var key := Cell(ws, 'D', 2);
    var keyString: Option<string> := None;   // None: the name is not bound yet
    if key.Some? {
      keyString := Some(Unquote(key.value));
    }
    var value := Cell(ws, 'E', 2);
    var valueString := "";
    if value.Some? {
      valueString := Unquote(value.value);
    }
    if keyString.None? {
      return dict, false;
    }
    var row := 3;
    while key.Some? && value.Some?
      invariant row >= 3
      invariant key == Cell(ws, 'D', row - 1) && value == Cell(ws, 'E', row - 1)
      invariant keyString.Some?
      invariant key.Some? ==> keyString.value == Unquote(key.value)
      invariant value.Some? ==> valueString == Unquote(value.value)
      invariant forall r :: 2 <= r < row - 1 ==> !ReplacementRowStops(ws, r)
      invariant dict == Replacements(ws, 2, row - 1)
      decreases Height(ws, 'D') + 1 - row
    {
      dict := dict[keyString.value := valueString];
      key := Cell(ws, 'D', row);
      if key.Some? {
        keyString := Some(Unquote(key.value));
      }
      value := Cell(ws, 'E', row);
      if value.Some? {
        valueString := Unquote(value.value);
      }
      row := row + 1;
    }
    assert ReplacementRowStops(ws, row - 1);
    assert ReplacementStop(ws, 2) == row - 1;
    return dict, true;
  }

  // ---------------------------------------------------------------------------
  // Common phrases

  /** The first row from `row` on whose F cell is empty. */
  function PhraseStop(ws: Sheet, row: nat): (k: nat)
    ensures k >= row
    ensures Cell(ws, 'F', k).None?
    ensures forall r :: row <= r < k ==> Cell(ws, 'F', r).Some?
    decreases Height(ws, 'F') + 1 - row
  {
    if Cell(ws, 'F', row).None? then row else PhraseStop(ws, row + 1)
  }

  /** The phrases of rows `lo` to `hi - 1`, in row order, quotes removed. */
  function Phrases(ws: Sheet, lo: int, hi: int): (ps: seq<string>)
    requires lo <= hi
    requires forall r :: lo <= r < hi ==> Cell(ws, 'F', r).Some?
    ensures |ps| == hi - lo
    ensures forall i :: 0 <= i < |ps| ==> ps[i] == Unquote(Cell(ws, 'F', lo + i).value)
    decreases hi - lo
  {
    if hi == lo then [] else Phrases(ws, lo, hi - 1) + [Unquote(Cell(ws, 'F', hi - 1).value)]
  }

  /** The common-phrase part of `__getSettingsFromExcel`: F2, F3, ... in order,
      quotes removed, up to the first empty cell. */
  method ReadCommonPhrases(ws: Sheet) returns (phrases: seq<string>)
    ensures phrases == Phrases(ws, 2, PhraseStop(ws, 2))
    ensures forall i :: 0 <= i < |phrases| ==> '"' !in phrases[i]
  {
    phrases := [];
    var phrase := Cell(ws, 'F', 2);
    var phraseString := "";
    if phrase.Some? {
      phraseString := phrase.value;
    }
    var row := 3;
    while phrase.Some?
      invariant row >= 3
      invariant phrase == Cell(ws, 'F', row - 1)
      invariant phrase.Some? ==> phraseString == phrase.value
      invariant forall r :: 2 <= r < row - 1 ==> Cell(ws, 'F', r).Some?
      invariant phrases == Phrases(ws, 2, row - 1)
      decreases Height(ws, 'F') + 1 - row
    {
      phraseString := Unquote(phraseString);
      phrases := phrases + [phraseString];
      phrase := Cell(ws, 'F', row);
      if phrase.Some? {
        phraseString := phrase.value;
      }
      row := row + 1;
    }
    assert Cell(ws, 'F', row - 1).None?;
    assert PhraseStop(ws, 2) == row - 1;
  }

  // ---------------------------------------------------------------------------
  // Voice and gender

  /** The voice and gender read from B5's text: with a '(' the voice is the
      stripped text before the first '(', and the gender is the stripped text
      between it and the next '(' (or the end) with every ')' removed. Without
      a '(' the whole text is the voice and the gender is "neutral". */
  function SplitVoice(s: string): (vg: (string, string))
    ensures '(' in s ==> '(' !in vg.0 && '(' !in vg.1 && ')' !in vg.1
    ensures '(' !in s ==> vg == (s, "neutral")
  {
    if '(' in s then
      var i := Strings.IndexOf(s, '(');
      var rest := s[i + 1..];
      var second := rest[..Strings.IndexOf(rest, '(')];
      StripKeepsOut(s[..i], '(');
      Strings.RemoveCharCounts(second, ')');
      StripKeepsOut(Strings.RemoveChar(second, ')'), '(');
      StripKeepsOut(Strings.RemoveChar(second, ')'), ')');
      (Strings.Strip(s[..i]), Strings.Strip(Strings.RemoveChar(second, ')')))
    else
      (s, "neutral")
  }

  /** A character absent from a string is absent from its `strip()`. */
  lemma StripKeepsOut(s: string, c: char)
    requires c !in s
    ensures c !in Strings.Strip(s)
  {
    Strings.StripCutsOnlySpaces(s);
    var lo, hi :| 0 <= lo <= hi <= |s| && Strings.Strip(s) == s[lo..hi];
    assert forall i :: 0 <= i < hi - lo ==> s[lo..hi][i] == s[lo + i];
  }

  /** A B5 text written as "voice (gender)" gives back that voice and gender,
      when neither holds a parenthesis or surrounding white space. */
  lemma SplitVoiceRoundTrip(voice: string, gender: string)
    requires '(' !in voice && ')' !in voice && '(' !in gender && ')' !in gender
    requires voice == [] || (!Strings.IsSpace(voice[0]) && !Strings.IsSpace(voice[|voice| - 1]))
    requires gender == [] || (!Strings.IsSpace(gender[0]) && !Strings.IsSpace(gender[|gender| - 1]))
    ensures SplitVoice(voice + " (" + gender + ")") == (voice, gender)
  {
    var s := voice + " (" + gender + ")";
    var i := |voice| + 1;
    FirstParenthesis(voice, gender);
    assert s[i] == '(';
    assert s[..i] == voice + " ";
    var rest := s[i + 1..];
    assert rest == gender + ")";
    NoParenthesis(rest);
    var second := rest[..Strings.IndexOf(rest, '(')];
    assert second == gender + ")";
    StripVoicePart(voice);
    StripGenderPart(gender);
    assert SplitVoice(s) == (Strings.Strip(s[..i]), Strings.Strip(Strings.RemoveChar(second, ')')));
  }

  /** In "voice (gender)" the first '(' is the one after the blank. */
  lemma FirstParenthesis(voice: string, gender: string)
    requires '(' !in voice
    ensures Strings.IndexOf(voice + " (" + gender + ")", '(') == |voice| + 1
  {
    var s := voice + " (" + gender + ")";
    assert s[..|voice| + 1] == voice + " " && s[|voice| + 1] == '(';
  }

  /** Without a '(', the part before the first '(' is the whole text. */
  lemma NoParenthesis(rest: string)
    requires '(' !in rest
    ensures rest[..Strings.IndexOf(rest, '(')] == rest
  {
  }

  /** The voice part: the trimmed voice followed by the blank before '('. */
  lemma StripVoicePart(voice: string)
    requires voice == [] || (!Strings.IsSpace(voice[0]) && !Strings.IsSpace(voice[|voice| - 1]))
    ensures Strings.Strip(voice + " ") == voice
  {
    assert (voice + " ")[..|voice|] == voice;
    assert Strings.TrailingSpaces(voice + " ") == 1 + Strings.TrailingSpaces(voice);
    Strings.StripTrimmed(voice);
  }

  /** The gender part: the trimmed gender followed by the closing ')'. */
  lemma StripGenderPart(gender: string)
    requires ')' !in gender
    requires gender == [] || (!Strings.IsSpace(gender[0]) && !Strings.IsSpace(gender[|gender| - 1]))
    ensures Strings.Strip(Strings.RemoveChar(gender + ")", ')')) == gender
  {
    RemoveLastChar(gender, ')');
    Strings.StripTrimmed(gender);
  }

  /** Removing a character that occurs only as the last one gives the rest. */
  lemma {:induction false} RemoveLastChar(s: string, c: char)
    requires c !in s
    ensures Strings.RemoveChar(s + [c], c) == s
  {
    var t := s + [c];
    if s == [] {
      assert t == [c] && t[1..] == [];
    } else {
      RemoveLastChar(s[1..], c);
      assert t[0] == s[0] && t[1..] == s[1..] + [c];
      assert s == [s[0]] + s[1..];
    }
  }

  // ---------------------------------------------------------------------------
  // The settings object

  const SHEET_NOT_FOUND := "settingsSheetNotFound"

  /** The language code one lookup stores, and whether it called the hook. */
  ghost predicate LookedUp(wb: Workbook, selected: Option<string>, code: Option<string>)
  {
    if "Languages" in wb.sheets then
      var langs := wb.sheets["Languages"];
      code == Cell(langs, 'B', LanguageStop(langs, selected, 1))
    else
      code == None
  }

  /** The hook calls of the two lookups: one per lookup when "Languages" is missing. */
  function LookupEvents(wb: Workbook): seq<HostEvent>
  {
    if "Languages" in wb.sheets then [] else [ExceptionHook, ExceptionHook]
  }

  class GetSettings {
    var speechToTextLanguageCode: Option<string>
    var textToSpeechLanguageCode: Option<string>
    var textToSpeechSsml: string
    var pathToGoogleCredentials: string
    var replacementDictionary: map<string, string>
    var commonPhrases: seq<string>
    var textToSpeechVoice: string
    var textToSpeechGender: string
    var ssmlSayAs: string
    /** The calls into the host: macro calls and exception-hook calls. */
    var events: seq<HostEvent>

    /** Every field still holds its initial empty value. */
    ghost predicate AtDefaults()
      reads this
    {
      && speechToTextLanguageCode == Some("") && textToSpeechLanguageCode == Some("")
      && textToSpeechSsml == "" && pathToGoogleCredentials == ""
      && replacementDictionary == map[] && commonPhrases == []
      && textToSpeechVoice == "" && textToSpeechGender == "" && ssmlSayAs == ""
    }

    /** Every field after the replacement table holds what the "Settings"
        sheet `ws` (and the "Languages" sheet of `wb`) say. */
    ghost predicate RestReadFrom(wb: Workbook, ws: Sheet)
      reads this
    {
      var vg := SplitVoice(Str(Cell(ws, 'B', 5)));
      && commonPhrases == Phrases(ws, 2, PhraseStop(ws, 2))
      && LookedUp(wb, Cell(ws, 'B', 3), speechToTextLanguageCode)
      && LookedUp(wb, Cell(ws, 'B', 4), textToSpeechLanguageCode)
      && textToSpeechVoice == vg.0 && textToSpeechGender == vg.1
      && ssmlSayAs == Str(Cell(ws, 'B', 6))
      && pathToGoogleCredentials == Str(Cell(ws, 'H', 4))
    }

    /** `__init__` followed by `__getSettingsFromExcel`.
        Without a "Settings" sheet, the missing sheet is reported twice and
        every field keeps its default. With an empty D2, the exception goes to
        the hook and every field keeps its default. Otherwise every field is
        read, and each language lookup reports a missing "Languages" sheet to
        the hook. `textToSpeechSsml` is never assigned. */
    constructor (wb: Workbook)
      ensures "Settings" !in wb.sheets ==>
                AtDefaults() && events == [PythonError(SHEET_NOT_FOUND), PythonError(SHEET_NOT_FOUND)]
      ensures "Settings" in wb.sheets && Cell(wb.sheets["Settings"], 'D', 2).None? ==>
                AtDefaults() && events == [ExceptionHook]
      ensures "Settings" in wb.sheets && Cell(wb.sheets["Settings"], 'D', 2).Some? ==>
                var ws := wb.sheets["Settings"];
                && replacementDictionary == Replacements(ws, 2, ReplacementStop(ws, 2))
                && RestReadFrom(wb, ws)
                && textToSpeechSsml == ""
                && events == LookupEvents(wb)
    {
      speechToTextLanguageCode := Some("");
      textToSpeechLanguageCode := Some("");
      textToSpeechSsml := "";
      pathToGoogleCredentials := "";
      replacementDictionary := map[];
      commonPhrases := [];
      textToSpeechVoice := "";
      textToSpeechGender := "";
      ssmlSayAs := "";
      events := [];
      new;
      if "Settings" !in wb.sheets {
        events := events + [PythonError(SHEET_NOT_FOUND)];
        // the `finally` clause reports the missing sheet a second time
        events := events + [PythonError(SHEET_NOT_FOUND)];
      } else {
        var ws := wb.sheets["Settings"];
        var dict, ok := ReadReplacements(ws);
        if !ok {
          events := events + [ExceptionHook];
          assert AtDefaults();
        } else {
          replacementDictionary := dict;
          ReadRest(wb, ws);
          assert replacementDictionary == Replacements(ws, 2, ReplacementStop(ws, 2));
        }
      }
    }

    /** The rest of `__getSettingsFromExcel`, once the replacement table was
        read: the common phrases, the two language codes, the voice and
        gender, the "say-as" hint and the credentials path, in that order. */
    method ReadRest(wb: Workbook, ws: Sheet)
      modifies this`commonPhrases, this`speechToTextLanguageCode, this`textToSpeechLanguageCode,
               this`textToSpeechVoice, this`textToSpeechGender, this`ssmlSayAs,
               this`pathToGoogleCredentials, this`events
      ensures RestReadFrom(wb, ws)
      ensures events == old(events) + LookupEvents(wb)
    {
      var phrases := ReadCommonPhrases(ws);
      var speechCode, hooked := LanguageCode(wb, Cell(ws, 'B', 3));
      var hooks := if hooked then [ExceptionHook] else [];
      var speakCode, hooked' := LanguageCode(wb, Cell(ws, 'B', 4));
      hooks := hooks + if hooked' then [ExceptionHook] else [];
      var voiceAndGender := Str(Cell(ws, 'B', 5));
      var vg := SplitVoice(voiceAndGender);
      assert LookedUp(wb, Cell(ws, 'B', 3), speechCode) && LookedUp(wb, Cell(ws, 'B', 4), speakCode);
      assert hooks == LookupEvents(wb);
      commonPhrases, speechToTextLanguageCode, textToSpeechLanguageCode := phrases, speechCode, speakCode;
      textToSpeechVoice, textToSpeechGender := vg.0, vg.1;
      ssmlSayAs, pathToGoogleCredentials := Str(Cell(ws, 'B', 6)), Str(Cell(ws, 'H', 4));
      events := events + hooks;
    }
  }
}
