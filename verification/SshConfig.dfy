/** Linking and unlinking the BastionZero ssh config in the user's own ssh config
    (generate-ssh-config.handler.ts): two text edits that undo each other for any set
    of environments, which share one note. */
module SshConfig {
  import opened Wrappers
  import opened Text
  import opened SshEdits

  // ---------- Texts ----------

  const MARKER := "BastionZero SSH configuration"

  const USE_OF := "# Please read the config file " + "below for additional information\n" + "# regarding the use of the "

  const DESCRIPTION := USE_OF + MARKER + " file.\n"

  const TWENTY_STARS := "********************"

  const NOTE_TEXT :=
    "# Note: no changes, " + "other than this insertion, " + "have been made to your\n" + "# existing configuration.\n#"

  const NOTE := NOTE_TEXT + (TWENTY_STARS + TWENTY_STARS + TWENTY_STARS + TWENTY_STARS) + "\n"

  function IncludeStatement(windows: bool, bzConfigFile: string): string {
    if windows then "Include \"" + bzConfigFile + "\"" else "Include " + bzConfigFile
  }

  const TEXTS := Texts(DESCRIPTION, NOTE, MARKER)

  // ---------- The file ----------

  /** The user's ssh config file, `None` when it does not exist, and the paths of the
      BastionZero config files that exist. */
  class SshConfigFile {
    var contents: Option<string>
    var bzConfigFiles: set<string>

    constructor (contents: Option<string>, bzConfigFiles: set<string>)
      ensures this.contents == contents && this.bzConfigFiles == bzConfigFiles
    {
      this.contents, this.bzConfigFiles := contents, bzConfigFiles;
    }

    function Text(): string
      reads this
    {
      if contents.Some? then contents.value else ""
    }

    method LinkNewConfigFile(windows: bool, bzConfigFile: string)
      modifies this`contents
      ensures contents == Some(Link(TEXTS, old(Text()), IncludeStatement(windows, bzConfigFile)))
    {
      var includeStmt := IncludeStatement(windows, bzConfigFile);
      var userConfigExists := contents.Some?;
      var configContents := if userConfigExists then contents.value else "";
      if !userConfigExists || !Includes(configContents, includeStmt) {
        assert !Includes(configContents, includeStmt) by {
          if !userConfigExists {
            IncludeNotEmpty(windows, bzConfigFile);
          }
        }
        var includeContents := DESCRIPTION + includeStmt + "\n\n";
        if !Includes(configContents, NOTE) {
          includeContents := includeContents + (NOTE + "\n");
        } else {
          includeContents := includeContents + "";
        }
        configContents := includeContents + configContents;
      } else if !Includes(configContents, DESCRIPTION) && !Includes(configContents, NOTE) {
        configContents := ReplaceFirst(configContents, includeStmt + "\n\n", "");
        configContents := DESCRIPTION + includeStmt + "\n\n" + NOTE + "\n" + configContents;
      }
      contents := Some(configContents);
    }

    /** Removing the BastionZero config file may fail, which is only logged. */
    method DeleteBzConfigContents(windows: bool, bzConfigFile: string, removable: bool)
      modifies this
      ensures bzConfigFiles == if removable then old(bzConfigFiles) - {bzConfigFile} else old(bzConfigFiles)
      ensures contents == Some(Unlink(TEXTS, old(Text()), IncludeStatement(windows, bzConfigFile)))
    {
      var includeStmt := IncludeStatement(windows, bzConfigFile);
      var includeStmtWithDes := DESCRIPTION + includeStmt + "\n\n";
      var configContents := Text();
      if Includes(configContents, includeStmtWithDes) {
        configContents := ReplaceFirst(configContents, includeStmtWithDes, "");
      } else if !Includes(configContents, DESCRIPTION) && Includes(configContents, includeStmt) {
        configContents := ReplaceFirst(configContents, includeStmt + "\n\n", "");
      }
      assert configContents == Cut(TEXTS, old(Text()), includeStmt);
      if Includes(configContents, NOTE) && !Includes(configContents, MARKER) {
        configContents := ReplaceFirst(configContents, NOTE + "\n", "");
      }
      contents := Some(configContents);
      if removable {
        bzConfigFiles := bzConfigFiles - {bzConfigFile};
      }
    }
  }

  lemma IncludeNotEmpty(windows: bool, bzConfigFile: string)
    ensures !Includes("", IncludeStatement(windows, bzConfigFile))
  {
  }

  // ---------- Facts about the constant texts ----------

  lemma MarkerFacts()
    ensures OneLine(MARKER) && 'B' in MARKER && 'I' !in MARKER
  {
    assert MARKER[0] == 'B';
  }

  lemma UseOfLacksI()
    ensures 'I' !in USE_OF
  {
    assert 'I' !in "# Please read the config file " && 'I' !in "below for additional information\n";
    assert 'I' !in "# regarding the use of the ";
  }

  lemma DescriptionFacts()
    ensures EndsLine(DESCRIPTION) && 'I' !in DESCRIPTION && DESCRIPTION != ""
  {
    MarkerFacts();
    UseOfLacksI();
    assert 'I' !in " file.\n";
  }

  lemma DescriptionMarked()
    ensures Includes(DESCRIPTION, MARKER)
  {
    OccursIn(DESCRIPTION, USE_OF, MARKER, " file.\n");
  }

  lemma NoteTextLacksI()
    ensures 'I' !in NOTE_TEXT
  {
    assert 'I' !in "# Note: no changes, " && 'I' !in "other than this insertion, ";
    assert 'I' !in "have been made to your\n";
    assert 'I' !in "# existing configuration.\n#";
  }

  lemma NoteTextLacksB()
    ensures 'B' !in NOTE_TEXT
  {
    assert 'B' !in "# Note: no changes, " && 'B' !in "other than this insertion, ";
    assert 'B' !in "have been made to your\n";
    assert 'B' !in "# existing configuration.\n#";
  }

  lemma {:induction false} NoteFacts()
    ensures EndsLine(NOTE) && 'I' !in NOTE && 'B' !in NOTE
  {
    NoteTextLacksI();
    NoteTextLacksB();
    assert 'I' !in TWENTY_STARS && 'B' !in TWENTY_STARS;
  }

  lemma {:induction false} RealTextsGood()
    ensures GoodTexts(TEXTS)
  {
    MarkerFacts();
    DescriptionFacts();
    DescriptionMarked();
    NoteFacts();
  }

  // ---------- What the commands promise ----------

  lemma IncludeStatementGood(windows: bool, bzConfigFile: string)
    requires OneLine(bzConfigFile)
    ensures GoodInclude(IncludeStatement(windows, bzConfigFile))
  {
    assert IncludeStatement(windows, bzConfigFile)[0] == 'I';
  }

  /** For every sequence of link and delete commands over any set of environments: the
      file is the linked environments' blocks, newest first, then the note if any is linked,
      then the original text; the note is there exactly while one is linked; and deleting
      the linked ones in any order restores the original. */
  lemma {:induction false} CommandsUndoEachOther(original: string, includes: set<string>, edits: seq<Edit>, order: seq<string>)
    requires AllGood(includes) && Untouched(TEXTS, original, includes) && Over(edits, includes)
    requires (forall x :: x in Linked(edits) ==> x in order) && forall x :: x in order ==> x in includes
    ensures ApplyAll(TEXTS, original, edits) == Render(TEXTS, Linked(edits), original)
    ensures Includes(ApplyAll(TEXTS, original, edits), NOTE) <==> Linked(edits) != []
    ensures ApplyAll(TEXTS, original, edits + Unlinks(order)) == original
  {
    RealTextsGood();
    EditsRender(TEXTS, original, includes, edits);
    NoteIffLinked(TEXTS, original, includes, edits);
    UnlinkingRestores(TEXTS, original, includes, edits, order);
  }

  /** A config path that starts another one is such a case: it is silently not linked. */
  lemma PathPrefixNotLinked(original: string, path: string, suffix: string)
    requires OneLine(path) && !Includes(original, IncludeStatement(false, path))
    ensures var longer := Render(TEXTS, [IncludeStatement(false, path + suffix)], original);
      Link(TEXTS, longer, IncludeStatement(false, path)) == longer
  {
    RealTextsGood();
    PrefixNotLinked(TEXTS, original, path, suffix);
  }

  lemma PrefixNotLinked(tx: Texts, original: string, path: string, suffix: string)
    requires GoodTexts(tx) && OneLine(path) && !Includes(original, IncludeStatement(false, path))
    ensures var longer := Render(tx, [IncludeStatement(false, path + suffix)], original);
      Link(tx, longer, IncludeStatement(false, path)) == longer
  {
    IncludeStatementGood(false, path);
    assert IncludeStatement(false, path + suffix) == IncludeStatement(false, path) + suffix;
    StartNotLinked(tx, original, IncludeStatement(false, path), suffix);
  }
}
