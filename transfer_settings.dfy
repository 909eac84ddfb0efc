/**
 * The FTP transfer settings that open options and copy options may carry: the representation
 * type (TYPE, section 3.1.1 of RFC 959), the file structure (STRU, section 3.1.2 of RFC 959) and
 * the transfer mode (MODE, section 3.4 of RFC 959).
 *
 * Every option builder walks its options in order. It stops at the first option it does not
 * support, or at the first transfer setting that differs from one of the same kind given
 * earlier ("set once"). Repeating a setting with the same value is accepted. `Scan` is that walk,
 * shared by the open-option and the copy-option builders.
 */
module TransferSettings {
  import opened Results

  datatype FileType = Ascii | Binary
  datatype FileStructure = File | Page
  datatype FileTransferMode = Stream | Block

  /** One transfer setting, as given among the options. */
  datatype Setting =
    | TypeSetting(fileType: FileType)
    | StructureSetting(fileStructure: FileStructure)
    | ModeSetting(fileTransferMode: FileTransferMode)

  /** The settings a builder records; None stands for a setting that was not given (null). */
  datatype Settings = Settings(
    fileType: Option<FileType>,
    fileStructure: Option<FileStructure>,
    fileTransferMode: Option<FileTransferMode>)

  const Unset := Settings(None, None, None)

  predicate SameKind(a: Setting, b: Setting) {
    (a.TypeSetting? && b.TypeSetting?) ||
    (a.StructureSetting? && b.StructureSetting?) ||
    (a.ModeSetting? && b.ModeSetting?)
  }

  /** Two different values of one kind, such as ascii and binary. */
  predicate Conflict(a: Setting, b: Setting) {
    SameKind(a, b) && a != b
  }

  /** Whether s has recorded the setting x. */
  predicate Holds(s: Settings, x: Setting) {
    match x
    case TypeSetting(t) => s.fileType == Some(t)
    case StructureSetting(f) => s.fileStructure == Some(f)
    case ModeSetting(m) => s.fileTransferMode == Some(m)
  }

  /**
   * Records x in s ("set once"). Fails exactly when s already holds a different value of
   * x's kind; otherwise the result holds what s held, plus x.
   */
  function Record(s: Settings, x: Setting): (r: Option<Settings>)
    ensures r.None? <==> exists y :: Holds(s, y) && Conflict(y, x)
    ensures r.Some? ==> forall y :: Holds(r.value, y) <==> Holds(s, y) || y == x
  {
    match x
    case TypeSetting(t) =>
      if s.fileType.Some? && s.fileType.value != t then
        assert Holds(s, TypeSetting(s.fileType.value));
        None
      else
        Some(s.(fileType := Some(t)))
    case StructureSetting(f) =>
      if s.fileStructure.Some? && s.fileStructure.value != f then
        assert Holds(s, StructureSetting(s.fileStructure.value));
        None
      else
        Some(s.(fileStructure := Some(f)))
    case ModeSetting(m) =>
      if s.fileTransferMode.Some? && s.fileTransferMode.value != m then
        assert Holds(s, ModeSetting(s.fileTransferMode.value));
        None
      else
        Some(s.(fileTransferMode := Some(m)))
  }

  /** Two settings records that hold the same settings are equal. */
  lemma SettingsDetermined(s: Settings, t: Settings)
    requires forall x :: Holds(s, x) <==> Holds(t, x)
    ensures s == t
  {
    if s.fileType.Some? { assert Holds(s, TypeSetting(s.fileType.value)); }
    if t.fileType.Some? { assert Holds(t, TypeSetting(t.fileType.value)); }
    if s.fileStructure.Some? { assert Holds(s, StructureSetting(s.fileStructure.value)); }
    if t.fileStructure.Some? { assert Holds(t, StructureSetting(t.fileStructure.value)); }
    if s.fileTransferMode.Some? { assert Holds(s, ModeSetting(s.fileTransferMode.value)); }
    if t.fileTransferMode.Some? { assert Holds(t, ModeSetting(t.fileTransferMode.value)); }
  }

  /** Where the walk over a builder's options ends. */
  datatype Verdict<+O> = Settled(settings: Settings) | Unsupported(option: O) | Conflicting

  /**
   * The walk over options in iteration order. `settingOf` tells which options are transfer
   * settings (always supported); `supported` tells which of the other options the builder
   * accepts. The first failure met is the verdict. An option the walk stops at is one of the
   * options given, and one the builder does not support.
   */
  function Scan<O>(options: seq<O>, settingOf: O -> Option<Setting>, supported: O -> bool): (r: Verdict<O>)
    ensures r.Unsupported? ==> r.option in options && settingOf(r.option).None? && !supported(r.option)
    decreases |options|
  {
    if options == [] then Settled(Unset)
    else
      var last := options[|options| - 1];
      match Scan(options[..|options| - 1], settingOf, supported)
      case Settled(s) =>
        (match settingOf(last)
         case Some(x) =>
           (match Record(s, x)
            case Some(s') => Settled(s')
            case None => Conflicting)
         case None =>
           if supported(last) then Settled(s) else Unsupported(last))
      case failed => failed
  }

  /** Some option among options is the transfer setting x. */
  ghost predicate Mentions<O>(options: seq<O>, settingOf: O -> Option<Setting>, x: Setting) {
    exists i :: 0 <= i < |options| && settingOf(options[i]) == Some(x)
  }

  /** Every option is a transfer setting or one the builder supports. */
  ghost predicate Recognised<O>(options: seq<O>, settingOf: O -> Option<Setting>, supported: O -> bool) {
    forall i :: 0 <= i < |options| ==> settingOf(options[i]).Some? || supported(options[i])
  }

  /** No two transfer settings among options conflict. */
  ghost predicate Consistent<O>(options: seq<O>, settingOf: O -> Option<Setting>) {
    forall x, y :: Mentions(options, settingOf, x) && Mentions(options, settingOf, y) ==> !Conflict(x, y)
  }

  /** s records exactly the transfer settings given among options. */
  ghost predicate Describes<O>(s: Settings, options: seq<O>, settingOf: O -> Option<Setting>) {
    forall x :: Holds(s, x) <==> Mentions(options, settingOf, x)
  }

  /** A supported option that is no transfer setting, added at the end, leaves the walk as it was. */
  lemma ScanSkipsSupported<O>(options: seq<O>, o: O, settingOf: O -> Option<Setting>, supported: O -> bool)
    requires settingOf(o) == None && supported(o)
    ensures Scan(options + [o], settingOf, supported) == Scan(options, settingOf, supported)
  {
    var extended := options + [o];
    assert extended[..|extended| - 1] == options;
  }

  /** Options describe at most one record of settings. */
  lemma DescriptionUnique<O>(s: Settings, t: Settings, options: seq<O>, settingOf: O -> Option<Setting>)
    requires Describes(s, options, settingOf) && Describes(t, options, settingOf)
    ensures s == t
  {
    SettingsDetermined(s, t);
  }

  lemma MentionsSnoc<O>(options: seq<O>, settingOf: O -> Option<Setting>, x: Setting)
    requires options != []
    ensures Mentions(options, settingOf, x) <==>
      Mentions(options[..|options| - 1], settingOf, x) || settingOf(options[|options| - 1]) == Some(x)
  {
    var n := |options| - 1;
    if Mentions(options, settingOf, x) {
      var i :| 0 <= i < |options| && settingOf(options[i]) == Some(x);
      if i < n {
        assert options[..n][i] == options[i];
      }
    }
    if Mentions(options[..n], settingOf, x) {
      var i :| 0 <= i < n && settingOf(options[..n][i]) == Some(x);
      assert options[i] == options[..n][i];
    }
  }

  /**
   * The walk settles exactly when every option is recognised and no two transfer settings
   * conflict; it then records exactly the settings given.
   */
  lemma {:induction false} ScanCharacterised<O>(options: seq<O>, settingOf: O -> Option<Setting>, supported: O -> bool)
    ensures Scan(options, settingOf, supported).Settled? <==>
      Recognised(options, settingOf, supported) && Consistent(options, settingOf)
    ensures Scan(options, settingOf, supported).Settled? ==>
      Describes(Scan(options, settingOf, supported).settings, options, settingOf)
    decreases |options|
  {
    if options == [] {
      assert forall x :: !Mentions(options, settingOf, x);
    } else {
      var n := |options| - 1;
      var p, last := options[..n], options[n];
      ScanCharacterised(p, settingOf, supported);
      forall x
        ensures Mentions(options, settingOf, x) <==> Mentions(p, settingOf, x) || settingOf(last) == Some(x)
      {
        MentionsSnoc(options, settingOf, x);
      }
      assert Recognised(options, settingOf, supported) <==>
        Recognised(p, settingOf, supported) && (settingOf(last).Some? || supported(last))
      by {
        if Recognised(p, settingOf, supported) && (settingOf(last).Some? || supported(last)) {
          forall i | 0 <= i < |options|
            ensures settingOf(options[i]).Some? || supported(options[i])
          {
            if i < n { assert options[i] == p[i]; }
          }
        }
        if Recognised(options, settingOf, supported) {
          forall i | 0 <= i < |p|
            ensures settingOf(p[i]).Some? || supported(p[i])
          {
            assert p[i] == options[i];
          }
        }
      }
      assert Consistent(options, settingOf) ==> Consistent(p, settingOf);
      match settingOf(last)
      case None =>
        assert Consistent(options, settingOf) <==> Consistent(p, settingOf);
      case Some(x) =>
        assert Consistent(options, settingOf) <==>
          Consistent(p, settingOf) && forall y :: Mentions(p, settingOf, y) ==> !Conflict(y, x);
    }
  }

  /** A failure met in a prefix of the options is the verdict for all of them. */
  lemma {:induction false} ScanFailureIsFinal<O>(options: seq<O>, k: nat, settingOf: O -> Option<Setting>, supported: O -> bool)
    requires k <= |options|
    requires !Scan(options[..k], settingOf, supported).Settled?
    ensures Scan(options, settingOf, supported) == Scan(options[..k], settingOf, supported)
    decreases |options|
  {
    if k < |options| {
      var n := |options| - 1;
      assert options[..n][..k] == options[..k];
      ScanFailureIsFinal(options[..n], k, settingOf, supported);
    } else {
      assert options[..k] == options;
    }
  }

  /** The walk stops at a conflict only when two of the transfer settings given conflict. */
  lemma {:induction false} ScanConflicting<O>(options: seq<O>, settingOf: O -> Option<Setting>, supported: O -> bool)
    ensures Scan(options, settingOf, supported).Conflicting? ==> !Consistent(options, settingOf)
    decreases |options|
  {
    if options != [] {
      var n := |options| - 1;
      var p, last := options[..n], options[n];
      ScanConflicting(p, settingOf, supported);
      forall x ensures Mentions(p, settingOf, x) ==> Mentions(options, settingOf, x) {
        MentionsSnoc(options, settingOf, x);
      }
      if Scan(p, settingOf, supported).Settled? && Scan(options, settingOf, supported).Conflicting? {
        var s := Scan(p, settingOf, supported).settings;
        var x := settingOf(last).value;
        ScanCharacterised(p, settingOf, supported);
        var y :| Holds(s, y) && Conflict(y, x);
        assert Mentions(p, settingOf, y);
        assert settingOf(options[n]) == Some(x);
      }
    }
  }
}
