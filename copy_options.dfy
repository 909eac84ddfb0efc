/**
 * Validation of the options given to a copy or a move: `CopyOptions.forCopy`, `forMove` and
 * the conversion `toOpenOptions` used when the copy goes through streams. Errors are the
 * unsupported option (UnsupportedOperationException) or an illegal combination
 * (IllegalArgumentException naming all the options).
 */
module CopyOptions {
  import opened Results
  import opened TransferSettings
  import OpenOptions

  /** The standard copy options, NOFOLLOW_LINKS, the transfer settings, and any other option. */
  datatype CopyOption =
    | ReplaceExisting | CopyAttributes | AtomicMove
    | NoFollowLinks
    | Transfer(setting: Setting)
    | Other(name: string)

  /** What a builder decided, with the options it was given (kept for `ToOpenOptions`). */
  datatype CopyFlags = CopyFlags(replaceExisting: bool, settings: Settings, options: seq<CopyOption>)

  datatype CopyOptionError =
    | UnsupportedCopyOption(option: CopyOption)
    | IllegalCopyOptionCombination(options: seq<CopyOption>)

  function SettingOf(o: CopyOption): Option<Setting> {
    if o.Transfer? then Some(o.setting) else None
  }

  predicate CopySupports(o: CopyOption) {
    o == ReplaceExisting || o == NoFollowLinks
  }

  /** ATOMIC_MOVE is supported only for a move within one file system. */
  predicate MoveSupports(sameFileSystem: bool, o: CopyOption) {
    o == ReplaceExisting || o == NoFollowLinks || (sameFileSystem && o == AtomicMove)
  }

  function MoveSupport(sameFileSystem: bool): CopyOption -> bool {
    o => MoveSupports(sameFileSystem, o)
  }

  function Build(options: seq<CopyOption>, v: Verdict<CopyOption>): Result<CopyFlags, CopyOptionError> {
    match v
    case Settled(s) => Success(CopyFlags(ReplaceExisting in options, s, options))
    case Unsupported(o) => Failure(UnsupportedCopyOption(o))
    case Conflicting => Failure(IllegalCopyOptionCombination(options))
  }

  /** forCopy */
  function ForCopy(options: seq<CopyOption>): (r: Result<CopyFlags, CopyOptionError>)
    ensures r.Success? ==> r.value.options == options
  {
    Build(options, Scan(options, SettingOf, CopySupports))
  }

  /** forMove(sameFileSystem, options) */
  function ForMove(sameFileSystem: bool, options: seq<CopyOption>): (r: Result<CopyFlags, CopyOptionError>)
    ensures r.Success? ==> r.value.options == options
  {
    Build(options, Scan(options, SettingOf, MoveSupport(sameFileSystem)))
  }

  /** The open option a copy option also is, if any: NOFOLLOW_LINKS and the transfer settings. */
  function AsOpenOption(o: CopyOption): Option<OpenOptions.OpenOption> {
    match o
    case NoFollowLinks => Some(OpenOptions.NoFollowLinks)
    case Transfer(x) => Some(OpenOptions.Transfer(x))
    case _ => None
  }

  /** The copy options that are also open options, in their order. */
  function OpenOptionsOf(options: seq<CopyOption>): (r: seq<OpenOptions.OpenOption>)
    ensures |r| <= |options|
    ensures forall i :: 0 <= i < |r| ==> r[i] == OpenOptions.NoFollowLinks || r[i].Transfer?
    ensures OpenOptions.NoFollowLinks in r <==> NoFollowLinks in options
    ensures forall x :: OpenOptions.Transfer(x) in r <==> Transfer(x) in options
  {
    if options == [] then []
    else
      (match AsOpenOption(options[0]) case Some(o) => [o] case None => []) + OpenOptionsOf(options[1..])
  }

  /** toOpenOptions(additional): the copy's open options followed by the additional ones. */
  function ToOpenOptions(c: CopyFlags, additional: seq<OpenOptions.OpenOption>): (r: seq<OpenOptions.OpenOption>)
    ensures |additional| <= |r| && r[|r| - |additional|..] == additional
    ensures forall i :: 0 <= i < |r| - |additional| ==> r[i] == OpenOptions.NoFollowLinks || r[i].Transfer?
  {
    OpenOptionsOf(c.options) + additional
  }

  /** Filtering keeps order: the open options of a concatenation are those of each part. */
  lemma {:induction false} OpenOptionsOfAppend(a: seq<CopyOption>, b: seq<CopyOption>)
    ensures OpenOptionsOf(a + b) == OpenOptionsOf(a) + OpenOptionsOf(b)
    decreases |a|
  {
    if a == [] {
      assert a + b == b;
    } else {
      var head := match AsOpenOption(a[0]) case Some(o) => [o] case None => [];
      assert (a + b)[0] == a[0] && (a + b)[1..] == a[1..] + b;
      OpenOptionsOfAppend(a[1..], b);
      calc {
        OpenOptionsOf(a + b);
        head + OpenOptionsOf(a[1..] + b);
        head + (OpenOptionsOf(a[1..]) + OpenOptionsOf(b));
        (head + OpenOptionsOf(a[1..])) + OpenOptionsOf(b);
      }
    }
  }

  /** REPLACE_EXISTING and COPY_ATTRIBUTES become nothing; NOFOLLOW_LINKS stays. */
  lemma {:induction false} ToOpenOptionsExample()
    ensures ForCopy([ReplaceExisting, NoFollowLinks]).Success?
    ensures ToOpenOptions(ForCopy([ReplaceExisting, NoFollowLinks]).value, [OpenOptions.Read]) ==
      [OpenOptions.NoFollowLinks, OpenOptions.Read]
  {
    var options := [ReplaceExisting, NoFollowLinks];
    assert options[..1] == [ReplaceExisting] && options[..1][..0] == [];
    assert Scan(options[..1], SettingOf, CopySupports) == Settled(Unset);
    assert Scan(options, SettingOf, CopySupports) == Settled(Unset);
    assert options[1..] == [NoFollowLinks] && options[1..][1..] == [];
    assert OpenOptionsOf(options[1..]) == [OpenOptions.NoFollowLinks];
  }

  /**
   * forCopy accepts exactly REPLACE_EXISTING, NOFOLLOW_LINKS and transfer settings without
   * conflicts; it replaces exactly when REPLACE_EXISTING is given and records the settings given.
   */
  lemma CopyAccepts(options: seq<CopyOption>)
    ensures ForCopy(options).Success? <==>
      Recognised(options, SettingOf, CopySupports) && Consistent(options, SettingOf)
    ensures ForCopy(options).Success? ==>
      (ForCopy(options).value.replaceExisting <==> ReplaceExisting in options) &&
      Describes(ForCopy(options).value.settings, options, SettingOf)
  {
    ScanCharacterised(options, SettingOf, CopySupports);
  }

  /**
   * forMove accepts what forCopy accepts, and ATOMIC_MOVE when the move stays within one file
   * system; ATOMIC_MOVE does not affect replaceExisting.
   */
  lemma MoveAccepts(sameFileSystem: bool, options: seq<CopyOption>)
    ensures ForMove(sameFileSystem, options).Success? <==>
      Recognised(options, SettingOf, MoveSupport(sameFileSystem)) && Consistent(options, SettingOf)
    ensures ForMove(sameFileSystem, options).Success? ==>
      (ForMove(sameFileSystem, options).value.replaceExisting <==> ReplaceExisting in options) &&
      Describes(ForMove(sameFileSystem, options).value.settings, options, SettingOf)
  {
    ScanCharacterised(options, SettingOf, MoveSupport(sameFileSystem));
  }

  /** The options a copy rejects, and a move rejects whatever the file systems. */
  lemma CopyAttributesAndAtomicMoveRejected(options: seq<CopyOption>, sameFileSystem: bool)
    ensures CopyAttributes in options ==> ForCopy(options).Failure? && ForMove(sameFileSystem, options).Failure?
    ensures AtomicMove in options ==> ForCopy(options).Failure?
    ensures AtomicMove in options && !sameFileSystem ==> ForMove(sameFileSystem, options).Failure?
    ensures options == [CopyAttributes] ==>
      ForCopy(options) == Failure(UnsupportedCopyOption(CopyAttributes)) &&
      ForMove(sameFileSystem, options) == Failure(UnsupportedCopyOption(CopyAttributes))
    ensures options == [AtomicMove] ==>
      ForCopy(options) == Failure(UnsupportedCopyOption(AtomicMove)) &&
      (!sameFileSystem ==> ForMove(sameFileSystem, options) == Failure(UnsupportedCopyOption(AtomicMove)))
  {
    CopyAccepts(options);
    MoveAccepts(sameFileSystem, options);
    if CopyAttributes in options {
      var i :| 0 <= i < |options| && options[i] == CopyAttributes;
      assert !(SettingOf(options[i]).Some? || CopySupports(options[i]));
      assert !(SettingOf(options[i]).Some? || MoveSupport(sameFileSystem)(options[i]));
    }
    if AtomicMove in options {
      var i :| 0 <= i < |options| && options[i] == AtomicMove;
      assert !(SettingOf(options[i]).Some? || CopySupports(options[i]));
      assert !sameFileSystem ==> !(SettingOf(options[i]).Some? || MoveSupport(sameFileSystem)(options[i]));
    }
    if options == [CopyAttributes] {
      assert options[..0] == [];
      assert Scan(options, SettingOf, CopySupports) == Unsupported(CopyAttributes);
      assert Scan(options, SettingOf, MoveSupport(sameFileSystem)) == Unsupported(CopyAttributes);
    }
    if options == [AtomicMove] {
      assert options[..0] == [];
      assert Scan(options, SettingOf, CopySupports) == Unsupported(AtomicMove);
      assert !sameFileSystem ==> Scan(options, SettingOf, MoveSupport(sameFileSystem)) == Unsupported(AtomicMove);
    }
  }

  /** ATOMIC_MOVE is accepted for a move within one file system and changes no flag. */
  lemma AtomicMoveWithinFileSystem(options: seq<CopyOption>)
    ensures ForMove(true, options + [AtomicMove]).Success? == ForMove(true, options).Success?
    ensures ForMove(true, options).Success? ==>
      var before, after := ForMove(true, options).value, ForMove(true, options + [AtomicMove]).value;
      after.replaceExisting == before.replaceExisting && after.settings == before.settings
  {
    var extended := options + [AtomicMove];
    assert extended[..|extended| - 1] == options;
    assert ReplaceExisting in extended <==> ReplaceExisting in options;
  }

  /**
   * Two different values of one transfer setting among otherwise acceptable options make forCopy
   * and forMove report an illegal combination naming all the options.
   */
  lemma ConflictingSettingsAreIllegal(options: seq<CopyOption>, sameFileSystem: bool, x: Setting, y: Setting)
    requires Transfer(x) in options && Transfer(y) in options && Conflict(x, y)
    ensures Recognised(options, SettingOf, CopySupports) ==>
      ForCopy(options) == Failure(IllegalCopyOptionCombination(options))
    ensures Recognised(options, SettingOf, MoveSupport(sameFileSystem)) ==>
      ForMove(sameFileSystem, options) == Failure(IllegalCopyOptionCombination(options))
  {
    var i :| 0 <= i < |options| && options[i] == Transfer(x);
    var j :| 0 <= j < |options| && options[j] == Transfer(y);
    assert SettingOf(options[i]) == Some(x) && SettingOf(options[j]) == Some(y);
    assert !Consistent(options, SettingOf);
    ScanCharacterised(options, SettingOf, CopySupports);
    ScanCharacterised(options, SettingOf, MoveSupport(sameFileSystem));
  }

  /**
   * Among transfer settings that do not conflict, an option forCopy or forMove does not support
   * is reported as unsupported, never as an illegal combination.
   */
  lemma UnsupportedCopyOptionsAreReported(options: seq<CopyOption>, sameFileSystem: bool)
    requires Consistent(options, SettingOf)
    ensures !Recognised(options, SettingOf, CopySupports) ==>
      ForCopy(options).Failure? && ForCopy(options).error.UnsupportedCopyOption? &&
      ForCopy(options).error.option in options && !ForCopy(options).error.option.Transfer? &&
      !CopySupports(ForCopy(options).error.option)
    ensures !Recognised(options, SettingOf, MoveSupport(sameFileSystem)) ==>
      ForMove(sameFileSystem, options).Failure? && ForMove(sameFileSystem, options).error.UnsupportedCopyOption? &&
      ForMove(sameFileSystem, options).error.option in options &&
      !ForMove(sameFileSystem, options).error.option.Transfer? &&
      !MoveSupports(sameFileSystem, ForMove(sameFileSystem, options).error.option)
  {
    ScanCharacterised(options, SettingOf, CopySupports);
    ScanCharacterised(options, SettingOf, MoveSupport(sameFileSystem));
    ScanConflicting(options, SettingOf, CopySupports);
    ScanConflicting(options, SettingOf, MoveSupport(sameFileSystem));
  }

  /** Each copy option that is a transfer setting appears, as an open option, in the conversion. */
  lemma {:induction false} OpenOptionsOfMentions(options: seq<CopyOption>, x: Setting)
    ensures Mentions(OpenOptionsOf(options), OpenOptions.SettingOf, x) <==> Mentions(options, SettingOf, x)
  {
    var r := OpenOptionsOf(options);
    if Mentions(options, SettingOf, x) {
      var i :| 0 <= i < |options| && SettingOf(options[i]) == Some(x);
      assert options[i] == Transfer(x);
      assert OpenOptions.Transfer(x) in r;
      var j :| 0 <= j < |r| && r[j] == OpenOptions.Transfer(x);
      assert OpenOptions.SettingOf(r[j]) == Some(x);
    }
    if Mentions(r, OpenOptions.SettingOf, x) {
      var j :| 0 <= j < |r| && OpenOptions.SettingOf(r[j]) == Some(x);
      assert r[j] == OpenOptions.Transfer(x);
      assert Transfer(x) in options;
      var i :| 0 <= i < |options| && options[i] == Transfer(x);
      assert SettingOf(options[i]) == Some(x);
    }
  }

  /**
   * Converting copy options, with additional open options that are not transfer settings, gives
   * open options that carry exactly the copy's transfer settings.
   */
  lemma ConversionMentions(c: CopyFlags, additional: seq<OpenOptions.OpenOption>, x: Setting)
    requires forall i :: 0 <= i < |additional| ==> !additional[i].Transfer?
    ensures Mentions(ToOpenOptions(c, additional), OpenOptions.SettingOf, x) <==> Mentions(c.options, SettingOf, x)
  {
    var converted := OpenOptionsOf(c.options);
    var openOptions := ToOpenOptions(c, additional);
    OpenOptionsOfMentions(c.options, x);
    forall j | |converted| <= j < |openOptions|
      ensures OpenOptions.SettingOf(openOptions[j]).None?
    {
      assert openOptions[j] == additional[j - |converted|];
    }
    if Mentions(openOptions, OpenOptions.SettingOf, x) {
      var j :| 0 <= j < |openOptions| && OpenOptions.SettingOf(openOptions[j]) == Some(x);
      assert openOptions[j] == converted[j];
    }
    if Mentions(converted, OpenOptions.SettingOf, x) {
      var j :| 0 <= j < |converted| && OpenOptions.SettingOf(converted[j]) == Some(x);
      assert openOptions[j] == converted[j];
    }
  }

  /**
   * The converted options, with additional ones that are not transfer settings, are consistent
   * and describe the copy's settings when the copy options do.
   */
  lemma ConversionDescribed(c: CopyFlags, additional: seq<OpenOptions.OpenOption>)
    requires forall i :: 0 <= i < |additional| ==> !additional[i].Transfer?
    requires Consistent(c.options, SettingOf) && Describes(c.settings, c.options, SettingOf)
    ensures Consistent(ToOpenOptions(c, additional), OpenOptions.SettingOf)
    ensures Describes(c.settings, ToOpenOptions(c, additional), OpenOptions.SettingOf)
  {
    var openOptions := ToOpenOptions(c, additional);
    forall x ensures Mentions(openOptions, OpenOptions.SettingOf, x) <==> Mentions(c.options, SettingOf, x) {
      ConversionMentions(c, additional, x);
    }
  }

  /** A builder that supports NOFOLLOW_LINKS and the additional options recognises the conversion. */
  lemma ConversionRecognised(c: CopyFlags, additional: seq<OpenOptions.OpenOption>, supported: OpenOptions.OpenOption -> bool)
    requires supported(OpenOptions.NoFollowLinks)
    requires forall i :: 0 <= i < |additional| ==> supported(additional[i])
    ensures Recognised(ToOpenOptions(c, additional), OpenOptions.SettingOf, supported)
  {
    var converted := OpenOptionsOf(c.options);
    var openOptions := ToOpenOptions(c, additional);
    forall i | 0 <= i < |openOptions|
      ensures OpenOptions.SettingOf(openOptions[i]).Some? || supported(openOptions[i])
    {
      if i >= |converted| {
        assert openOptions[i] == additional[i - |converted|];
      } else {
        assert openOptions[i] == converted[i];
      }
    }
  }

  /** Options other than NOFOLLOW_LINKS and transfer settings come only from the additional ones. */
  lemma ConversionKeepsOthers(c: CopyFlags, additional: seq<OpenOptions.OpenOption>, o: OpenOptions.OpenOption)
    requires !o.NoFollowLinks? && !o.Transfer?
    ensures o in ToOpenOptions(c, additional) <==> o in additional
  {
    var converted := OpenOptionsOf(c.options);
    var openOptions := ToOpenOptions(c, additional);
    assert o !in converted;
    assert openOptions == converted + additional;
  }

  /**
   * A copy through streams: opening the source for input with the converted options, plus
   * additional options an input stream supports, succeeds and uses the transfer settings the
   * copy options carried.
   */
  lemma CopySettingsReachInputStream(options: seq<CopyOption>, additional: seq<OpenOptions.OpenOption>)
    requires ForCopy(options).Success?
    requires forall i :: 0 <= i < |additional| ==> OpenOptions.InputStreamSupports(additional[i])
    ensures OpenOptions.ForNewInputStream(ToOpenOptions(ForCopy(options).value, additional)).Success?
    ensures OpenOptions.ForNewInputStream(ToOpenOptions(ForCopy(options).value, additional)).value.settings ==
      ForCopy(options).value.settings
  {
    CopyAccepts(options);
    ConvertedInputStream(ForCopy(options).value, additional);
  }

  /** The step of CopySettingsReachInputStream that starts from the built flags. */
  lemma ConvertedInputStream(c: CopyFlags, additional: seq<OpenOptions.OpenOption>)
    requires Consistent(c.options, SettingOf) && Describes(c.settings, c.options, SettingOf)
    requires forall i :: 0 <= i < |additional| ==> OpenOptions.InputStreamSupports(additional[i])
    ensures OpenOptions.ForNewInputStream(ToOpenOptions(c, additional)).Success?
    ensures OpenOptions.ForNewInputStream(ToOpenOptions(c, additional)).value.settings == c.settings
  {
    var openOptions := ToOpenOptions(c, additional);
    ConversionDescribed(c, additional);
    ConversionRecognised(c, additional, OpenOptions.InputStreamSupports);
    OpenOptions.InputStreamAccepts(openOptions);
    var f := OpenOptions.ForNewInputStream(openOptions).value;
    DescriptionUnique(f.settings, c.settings, openOptions, OpenOptions.SettingOf);
  }

  /**
   * The same for the target, opened for output with the converted options plus additional
   * options an output stream supports, not both APPEND and TRUNCATE_EXISTING.
   */
  lemma CopySettingsReachOutputStream(options: seq<CopyOption>, additional: seq<OpenOptions.OpenOption>)
    requires ForCopy(options).Success?
    requires forall i :: 0 <= i < |additional| ==> OpenOptions.OutputStreamSupports(additional[i])
    requires !(OpenOptions.Append in additional && OpenOptions.TruncateExisting in additional)
    ensures OpenOptions.ForNewOutputStream(ToOpenOptions(ForCopy(options).value, additional)).Success?
    ensures OpenOptions.ForNewOutputStream(ToOpenOptions(ForCopy(options).value, additional)).value.settings ==
      ForCopy(options).value.settings
  {
    CopyAccepts(options);
    ConvertedOutputStream(ForCopy(options).value, additional);
  }

  /** The step of CopySettingsReachOutputStream that starts from the built flags. */
  lemma ConvertedOutputStream(c: CopyFlags, additional: seq<OpenOptions.OpenOption>)
    requires Consistent(c.options, SettingOf) && Describes(c.settings, c.options, SettingOf)
    requires forall i :: 0 <= i < |additional| ==> OpenOptions.OutputStreamSupports(additional[i])
    requires !(OpenOptions.Append in additional && OpenOptions.TruncateExisting in additional)
    ensures OpenOptions.ForNewOutputStream(ToOpenOptions(c, additional)).Success?
    ensures OpenOptions.ForNewOutputStream(ToOpenOptions(c, additional)).value.settings == c.settings
  {
    var openOptions := ToOpenOptions(c, additional);
    ConversionDescribed(c, additional);
    if openOptions == [] {
      assert forall x :: !Mentions(openOptions, OpenOptions.SettingOf, x);
      SettingsDetermined(Unset, c.settings);
    } else {
      ConversionRecognised(c, additional, OpenOptions.OutputStreamSupports);
      ConversionKeepsOthers(c, additional, OpenOptions.Append);
      ConversionKeepsOthers(c, additional, OpenOptions.TruncateExisting);
      OpenOptions.OutputStreamAccepts(openOptions);
      var f := OpenOptions.ForNewOutputStream(openOptions).value;
      DescriptionUnique(f.settings, c.settings, openOptions, OpenOptions.SettingOf);
    }
  }
}
