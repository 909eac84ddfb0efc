/**
 * Validation of the options given when a file is opened: `OpenOptions.forNewInputStream`,
 * `forNewOutputStream` and `forNewByteChannel`. Each maps the options, in iteration order, to a
 * flags record or to one of two errors: an option the builder does not support (Java's
 * UnsupportedOperationException naming the option) or an illegal combination (Java's
 * IllegalArgumentException naming all the options).
 */
module OpenOptions {
  import opened Results
  import opened TransferSettings

  /** The standard open options, NOFOLLOW_LINKS, the transfer settings, and any other option. */
  datatype OpenOption =
    | Read | Write | Append | TruncateExisting | Create | CreateNew | DeleteOnClose
    | Sparse | Sync | DSync
    | NoFollowLinks
    | Transfer(setting: Setting)
    | Other(name: string)

  /** What a builder decided about the file to open. */
  datatype OpenFlags = OpenFlags(
    read: bool, write: bool, append: bool, create: bool, createNew: bool, deleteOnClose: bool,
    settings: Settings)

  datatype OpenOptionError =
    | UnsupportedOpenOption(option: OpenOption)
    | IllegalOpenOptionCombination(options: seq<OpenOption>)

  function SettingOf(o: OpenOption): Option<Setting> {
    if o.Transfer? then Some(o.setting) else None
  }

  /** Options every builder accepts and that change none of the flags. */
  predicate Ignored(o: OpenOption) {
    o == Sparse || o == Sync || o == DSync || o == NoFollowLinks
  }

  predicate InputStreamSupports(o: OpenOption) {
    o == Read || o == DeleteOnClose || Ignored(o)
  }

  predicate OutputStreamSupports(o: OpenOption) {
    o == Write || o == Append || o == TruncateExisting || o == Create || o == CreateNew ||
    o == DeleteOnClose || Ignored(o)
  }

  predicate ByteChannelSupports(o: OpenOption) {
    !o.Other?
  }

  /** The builder's verdict on a walk over options that did not settle. */
  function Rejection(options: seq<OpenOption>, v: Verdict<OpenOption>): OpenOptionError
    requires !v.Settled?
  {
    match v
    case Unsupported(o) => UnsupportedOpenOption(o)
    case Conflicting => IllegalOpenOptionCombination(options)
  }

  /** forNewInputStream: a read-only stream; DELETE_ON_CLOSE is the only flag it takes. */
  function ForNewInputStream(options: seq<OpenOption>): (r: Result<OpenFlags, OpenOptionError>)
    ensures r.Success? ==> r.value.read && !r.value.write && !r.value.append
    ensures r.Success? ==> !r.value.create && !r.value.createNew
  {
    match Scan(options, SettingOf, InputStreamSupports)
    case Settled(s) => Success(OpenFlags(true, false, false, false, false, DeleteOnClose in options, s))
    case v => Failure(Rejection(options, v))
  }

  /**
   * forNewOutputStream: a write-only stream. With no options the file is created if missing;
   * otherwise CREATE must be given for that. APPEND contradicts TRUNCATE_EXISTING.
   */
  function ForNewOutputStream(options: seq<OpenOption>): (r: Result<OpenFlags, OpenOptionError>)
    ensures r.Success? ==> !r.value.read && r.value.write
  {
    if options == [] then
      Success(OpenFlags(false, true, false, true, false, false, Unset))
    else
      match Scan(options, SettingOf, OutputStreamSupports)
      case Settled(s) =>
        if Append in options && TruncateExisting in options then
          Failure(IllegalOpenOptionCombination(options))
        else
          Success(OpenFlags(false, true, Append in options, Create in options, CreateNew in options,
                            DeleteOnClose in options, s))
      case v => Failure(Rejection(options, v))
  }

  /**
   * forNewByteChannel: reads unless WRITE or APPEND is given; APPEND implies writing. READ
   * contradicts WRITE and APPEND, and APPEND contradicts TRUNCATE_EXISTING.
   */
  function ForNewByteChannel(options: seq<OpenOption>): (r: Result<OpenFlags, OpenOptionError>)
    ensures r.Success? ==> r.value.read != r.value.write
    ensures r.Success? ==> r.value.append ==> r.value.write
  {
    match Scan(options, SettingOf, ByteChannelSupports)
    case Settled(s) =>
      var write := Write in options || Append in options;
      var read := Read in options || !write;
      if (read && write) || (Append in options && TruncateExisting in options) then
        Failure(IllegalOpenOptionCombination(options))
      else
        Success(OpenFlags(read, write, Append in options, Create in options, CreateNew in options,
                          DeleteOnClose in options, s))
    case v => Failure(Rejection(options, v))
  }

  // Acceptance and flags, option by option

  /**
   * An input stream accepts exactly READ, DELETE_ON_CLOSE, the ignored options and transfer
   * settings without conflicts; it records the settings given and deletes on close exactly when
   * DELETE_ON_CLOSE is given.
   */
  lemma InputStreamAccepts(options: seq<OpenOption>)
    ensures ForNewInputStream(options).Success? <==>
      Recognised(options, SettingOf, InputStreamSupports) && Consistent(options, SettingOf)
    ensures ForNewInputStream(options).Success? ==>
      var f := ForNewInputStream(options).value;
      (f.deleteOnClose <==> DeleteOnClose in options) && Describes(f.settings, options, SettingOf)
  {
    ScanCharacterised(options, SettingOf, InputStreamSupports);
  }

  /** WRITE, APPEND, TRUNCATE_EXISTING, CREATE and CREATE_NEW make an input stream fail. */
  lemma InputStreamRejectsWriting(options: seq<OpenOption>, o: OpenOption)
    requires o in options
    requires o == Write || o == Append || o == TruncateExisting || o == Create || o == CreateNew
    ensures ForNewInputStream(options).Failure?
    ensures options == [o] ==> ForNewInputStream(options) == Failure(UnsupportedOpenOption(o))
  {
    InputStreamAccepts(options);
    var i :| 0 <= i < |options| && options[i] == o;
    assert !(SettingOf(options[i]).Some? || InputStreamSupports(options[i]));
    if options == [o] {
      assert options[..0] == [];
      assert Scan(options, SettingOf, InputStreamSupports) == Unsupported(o);
    }
  }

  /**
   * An output stream accepts exactly the writing options, DELETE_ON_CLOSE, the ignored options
   * and transfer settings without conflicts, as long as APPEND and TRUNCATE_EXISTING are not
   * both given, which is an illegal combination. Given options, each flag is set exactly when its
   * option is among them.
   */
  lemma OutputStreamAccepts(options: seq<OpenOption>)
    requires options != []
    ensures ForNewOutputStream(options).Success? <==>
      Recognised(options, SettingOf, OutputStreamSupports) && Consistent(options, SettingOf) &&
      !(Append in options && TruncateExisting in options)
    ensures (Recognised(options, SettingOf, OutputStreamSupports) && Consistent(options, SettingOf) &&
             Append in options && TruncateExisting in options) ==>
      ForNewOutputStream(options) == Failure(IllegalOpenOptionCombination(options))
    ensures ForNewOutputStream(options).Success? ==>
      var f := ForNewOutputStream(options).value;
      (f.append <==> Append in options) && (f.create <==> Create in options) &&
      (f.createNew <==> CreateNew in options) && (f.deleteOnClose <==> DeleteOnClose in options) &&
      Describes(f.settings, options, SettingOf)
  {
    ScanCharacterised(options, SettingOf, OutputStreamSupports);
  }

  /** With no options an output stream creates the file if it is missing, and nothing else. */
  lemma OutputStreamDefaults()
    ensures ForNewOutputStream([]) == Success(OpenFlags(false, true, false, true, false, false, Unset))
  {
  }

  /** READ makes an output stream fail; on its own it is reported as unsupported. */
  lemma OutputStreamRejectsRead(options: seq<OpenOption>)
    requires Read in options
    ensures ForNewOutputStream(options).Failure?
    ensures options == [Read] ==> ForNewOutputStream(options) == Failure(UnsupportedOpenOption(Read))
  {
    OutputStreamAccepts(options);
    var i :| 0 <= i < |options| && options[i] == Read;
    assert !(SettingOf(options[i]).Some? || OutputStreamSupports(options[i]));
    if options == [Read] {
      assert options[..0] == [];
      assert Scan(options, SettingOf, OutputStreamSupports) == Unsupported(Read);
    }
  }

  /**
   * A byte channel accepts every standard option, NOFOLLOW_LINKS and transfer settings without
   * conflicts, except READ with WRITE or APPEND, and APPEND with TRUNCATE_EXISTING, which are
   * illegal combinations. It reads
   * unless WRITE or APPEND is given, and sets every other flag exactly when its option is given.
   */
  lemma ByteChannelAccepts(options: seq<OpenOption>)
    ensures ForNewByteChannel(options).Success? <==>
      Recognised(options, SettingOf, ByteChannelSupports) && Consistent(options, SettingOf) &&
      !(Read in options && (Write in options || Append in options)) &&
      !(Append in options && TruncateExisting in options)
    ensures (Recognised(options, SettingOf, ByteChannelSupports) && Consistent(options, SettingOf) &&
             ((Read in options && (Write in options || Append in options)) ||
              (Append in options && TruncateExisting in options))) ==>
      ForNewByteChannel(options) == Failure(IllegalOpenOptionCombination(options))
    ensures ForNewByteChannel(options).Success? ==>
      var f := ForNewByteChannel(options).value;
      (f.read <==> !(Write in options || Append in options)) &&
      (f.write <==> Write in options || Append in options) &&
      (f.append <==> Append in options) && (f.create <==> Create in options) &&
      (f.createNew <==> CreateNew in options) && (f.deleteOnClose <==> DeleteOnClose in options) &&
      Describes(f.settings, options, SettingOf)
  {
    ScanCharacterised(options, SettingOf, ByteChannelSupports);
  }

  /** An option of another kind makes a byte channel fail, reported as unsupported on its own. */
  lemma ByteChannelRejectsOther(options: seq<OpenOption>, name: string)
    requires Other(name) in options
    ensures ForNewByteChannel(options).Failure?
    ensures options == [Other(name)] ==>
      ForNewByteChannel(options) == Failure(UnsupportedOpenOption(Other(name)))
  {
    ByteChannelAccepts(options);
    var i :| 0 <= i < |options| && options[i] == Other(name);
    assert !(SettingOf(options[i]).Some? || ByteChannelSupports(options[i]));
    if options == [Other(name)] {
      assert options[..0] == [];
      assert Scan(options, SettingOf, ByteChannelSupports) == Unsupported(Other(name));
    }
  }

  /**
   * The byte channel takes a set: whether it succeeds, and with which flags, depends only on
   * which options are present, not on their order or repetition.
   */
  lemma ByteChannelDependsOnSetOnly(a: seq<OpenOption>, b: seq<OpenOption>)
    requires forall o :: o in a <==> o in b
    ensures ForNewByteChannel(a).Success? <==> ForNewByteChannel(b).Success?
    ensures ForNewByteChannel(a).Success? ==> ForNewByteChannel(a) == ForNewByteChannel(b)
  {
    ByteChannelAccepts(a);
    ByteChannelAccepts(b);
    SameElementsSameSettings(a, b, ByteChannelSupports);
    if ForNewByteChannel(a).Success? {
      var fa, fb := ForNewByteChannel(a).value, ForNewByteChannel(b).value;
      SettingsDetermined(fa.settings, fb.settings);
    }
  }

  /** Options with the same elements are recognised, consistent and mention alike. */
  lemma SameElementsSameSettings(a: seq<OpenOption>, b: seq<OpenOption>, supported: OpenOption -> bool)
    requires forall o :: o in a <==> o in b
    ensures forall x :: Mentions(a, SettingOf, x) <==> Mentions(b, SettingOf, x)
    ensures Recognised(a, SettingOf, supported) <==> Recognised(b, SettingOf, supported)
    ensures Consistent(a, SettingOf) <==> Consistent(b, SettingOf)
  {
    forall x ensures Mentions(a, SettingOf, x) <==> Mentions(b, SettingOf, x) {
      if Mentions(a, SettingOf, x) {
        var i :| 0 <= i < |a| && SettingOf(a[i]) == Some(x);
        assert a[i] in a;
        var j :| 0 <= j < |b| && b[j] == a[i];
      }
      if Mentions(b, SettingOf, x) {
        var j :| 0 <= j < |b| && SettingOf(b[j]) == Some(x);
        assert b[j] in b;
        var i :| 0 <= i < |a| && a[i] == b[j];
      }
    }
    if Recognised(a, SettingOf, supported) {
      forall j | 0 <= j < |b| ensures SettingOf(b[j]).Some? || supported(b[j]) {
        assert b[j] in b;
        var i :| 0 <= i < |a| && a[i] == b[j];
      }
    }
    if Recognised(b, SettingOf, supported) {
      forall i | 0 <= i < |a| ensures SettingOf(a[i]).Some? || supported(a[i]) {
        assert a[i] in a;
        var j :| 0 <= j < |b| && b[j] == a[i];
      }
    }
  }

  // Transfer settings, common to the three builders

  /**
   * Two different values of one transfer setting among otherwise acceptable options make every
   * builder report an illegal combination naming all the options.
   */
  lemma ConflictingSettingsAreIllegal(options: seq<OpenOption>, x: Setting, y: Setting)
    requires Transfer(x) in options && Transfer(y) in options && Conflict(x, y)
    ensures Recognised(options, SettingOf, InputStreamSupports) ==>
      ForNewInputStream(options) == Failure(IllegalOpenOptionCombination(options))
    ensures Recognised(options, SettingOf, OutputStreamSupports) ==>
      ForNewOutputStream(options) == Failure(IllegalOpenOptionCombination(options))
    ensures Recognised(options, SettingOf, ByteChannelSupports) ==>
      ForNewByteChannel(options) == Failure(IllegalOpenOptionCombination(options))
  {
    var i :| 0 <= i < |options| && options[i] == Transfer(x);
    var j :| 0 <= j < |options| && options[j] == Transfer(y);
    assert SettingOf(options[i]) == Some(x) && SettingOf(options[j]) == Some(y);
    assert !Consistent(options, SettingOf);
    ScanCharacterised(options, SettingOf, InputStreamSupports);
    ScanCharacterised(options, SettingOf, OutputStreamSupports);
    ScanCharacterised(options, SettingOf, ByteChannelSupports);
  }

  /** e names one of options, not a transfer setting, that the builder does not support. */
  predicate ReportsUnsupported(options: seq<OpenOption>, e: OpenOptionError, supported: OpenOption -> bool) {
    e.UnsupportedOpenOption? && e.option in options && !e.option.Transfer? && !supported(e.option)
  }

  /**
   * Among transfer settings that do not conflict, an option a builder does not support makes it
   * report an unsupported option, never an illegal combination.
   */
  lemma UnsupportedOptionsAreReported(options: seq<OpenOption>)
    requires Consistent(options, SettingOf)
    ensures !Recognised(options, SettingOf, InputStreamSupports) ==>
      ForNewInputStream(options).Failure? &&
      ReportsUnsupported(options, ForNewInputStream(options).error, InputStreamSupports)
    ensures !Recognised(options, SettingOf, OutputStreamSupports) ==>
      ForNewOutputStream(options).Failure? &&
      ReportsUnsupported(options, ForNewOutputStream(options).error, OutputStreamSupports)
    ensures !Recognised(options, SettingOf, ByteChannelSupports) ==>
      ForNewByteChannel(options).Failure? &&
      ReportsUnsupported(options, ForNewByteChannel(options).error, ByteChannelSupports)
  {
    ScanCharacterised(options, SettingOf, InputStreamSupports);
    ScanCharacterised(options, SettingOf, OutputStreamSupports);
    ScanCharacterised(options, SettingOf, ByteChannelSupports);
    ScanConflicting(options, SettingOf, InputStreamSupports);
    ScanConflicting(options, SettingOf, OutputStreamSupports);
    ScanConflicting(options, SettingOf, ByteChannelSupports);
  }

  /**
   * A transfer setting given, once or repeatedly, and no other of its kind, is recorded by every
   * builder that succeeds.
   */
  lemma GivenSettingIsRecorded(options: seq<OpenOption>, x: Setting)
    requires Transfer(x) in options
    ensures ForNewInputStream(options).Success? ==> Holds(ForNewInputStream(options).value.settings, x)
    ensures ForNewOutputStream(options).Success? ==> Holds(ForNewOutputStream(options).value.settings, x)
    ensures ForNewByteChannel(options).Success? ==> Holds(ForNewByteChannel(options).value.settings, x)
  {
    var i :| 0 <= i < |options| && options[i] == Transfer(x);
    assert SettingOf(options[i]) == Some(x);
    InputStreamAccepts(options);
    OutputStreamAccepts(options);
    ByteChannelAccepts(options);
  }

  /** A builder that succeeds records no transfer setting that was not given. */
  lemma AbsentSettingIsUnset(options: seq<OpenOption>)
    requires forall i :: 0 <= i < |options| ==> !options[i].Transfer?
    ensures ForNewInputStream(options).Success? ==> ForNewInputStream(options).value.settings == Unset
    ensures ForNewOutputStream(options).Success? ==> ForNewOutputStream(options).value.settings == Unset
    ensures ForNewByteChannel(options).Success? ==> ForNewByteChannel(options).value.settings == Unset
  {
    assert forall x :: !Mentions(options, SettingOf, x);
    InputStreamAccepts(options);
    ByteChannelAccepts(options);
    if options != [] {
      OutputStreamAccepts(options);
    }
    if ForNewInputStream(options).Success? {
      SettingsDetermined(ForNewInputStream(options).value.settings, Unset);
    }
    if ForNewOutputStream(options).Success? {
      SettingsDetermined(ForNewOutputStream(options).value.settings, Unset);
    }
    if ForNewByteChannel(options).Success? {
      SettingsDetermined(ForNewByteChannel(options).value.settings, Unset);
    }
  }

  /**
   * SPARSE, SYNC, DSYNC and NOFOLLOW_LINKS, added to options, change no builder's outcome,
   * except for the error that names all the options.
   */
  lemma IgnoredOptionsChangeNothing(options: seq<OpenOption>, o: OpenOption)
    requires Ignored(o)
    ensures ForNewInputStream(options + [o]).Success? == ForNewInputStream(options).Success?
    ensures ForNewInputStream(options).Success? ==> ForNewInputStream(options + [o]) == ForNewInputStream(options)
    ensures options != [] ==> ForNewOutputStream(options + [o]).Success? == ForNewOutputStream(options).Success?
    ensures options != [] && ForNewOutputStream(options).Success? ==>
      ForNewOutputStream(options + [o]) == ForNewOutputStream(options)
    ensures ForNewByteChannel(options + [o]).Success? == ForNewByteChannel(options).Success?
    ensures ForNewByteChannel(options).Success? ==> ForNewByteChannel(options + [o]) == ForNewByteChannel(options)
  {
    InputStreamSkips(options, o);
    if options != [] {
      OutputStreamSkips(options, o);
    }
    ByteChannelSkips(options, o);
  }

  /** Appending o leaves every other option's membership as it was. */
  lemma MembershipKept(options: seq<OpenOption>, o: OpenOption, p: OpenOption)
    requires p != o
    ensures p in options + [o] <==> p in options
  {
  }

  /** An input stream ignores a supported option without a flag of its own added at the end. */
  lemma InputStreamSkips(options: seq<OpenOption>, o: OpenOption)
    requires InputStreamSupports(o) && SettingOf(o) == None && o != DeleteOnClose
    ensures ForNewInputStream(options + [o]).Success? == ForNewInputStream(options).Success?
    ensures ForNewInputStream(options).Success? ==> ForNewInputStream(options + [o]) == ForNewInputStream(options)
  {
    ScanSkipsSupported(options, o, SettingOf, InputStreamSupports);
    MembershipKept(options, o, DeleteOnClose);
  }

  /** An output stream with options ignores a supported option without a flag of its own added at the end. */
  lemma OutputStreamSkips(options: seq<OpenOption>, o: OpenOption)
    requires options != []
    requires OutputStreamSupports(o) && SettingOf(o) == None
    requires o != Append && o != TruncateExisting && o != Create && o != CreateNew && o != DeleteOnClose
    ensures ForNewOutputStream(options + [o]).Success? == ForNewOutputStream(options).Success?
    ensures ForNewOutputStream(options).Success? ==> ForNewOutputStream(options + [o]) == ForNewOutputStream(options)
  {
    ScanSkipsSupported(options, o, SettingOf, OutputStreamSupports);
    MembershipKept(options, o, Append);
    MembershipKept(options, o, TruncateExisting);
    MembershipKept(options, o, Create);
    MembershipKept(options, o, CreateNew);
    MembershipKept(options, o, DeleteOnClose);
  }

  /** A byte channel ignores SPARSE, SYNC, DSYNC and NOFOLLOW_LINKS added at the end. */
  lemma ByteChannelSkips(options: seq<OpenOption>, o: OpenOption)
    requires Ignored(o)
    ensures ForNewByteChannel(options + [o]).Success? == ForNewByteChannel(options).Success?
    ensures ForNewByteChannel(options).Success? ==> ForNewByteChannel(options + [o]) == ForNewByteChannel(options)
  {
    ScanSkipsSupported(options, o, SettingOf, ByteChannelSupports);
    MembershipKept(options, o, Read);
    MembershipKept(options, o, Write);
    MembershipKept(options, o, Append);
    MembershipKept(options, o, TruncateExisting);
    MembershipKept(options, o, Create);
    MembershipKept(options, o, CreateNew);
    MembershipKept(options, o, DeleteOnClose);
  }

  /**
   * READ, added to the options of an input stream, changes nothing; neither does WRITE, added
   * to the options of an output stream that has options already.
   */
  lemma NeutralReadAndWrite(options: seq<OpenOption>)
    ensures ForNewInputStream(options + [Read]).Success? == ForNewInputStream(options).Success?
    ensures ForNewInputStream(options).Success? ==> ForNewInputStream(options + [Read]) == ForNewInputStream(options)
    ensures options != [] ==> ForNewOutputStream(options + [Write]).Success? == ForNewOutputStream(options).Success?
    ensures options != [] && ForNewOutputStream(options).Success? ==>
      ForNewOutputStream(options + [Write]) == ForNewOutputStream(options)
  {
    InputStreamSkips(options, Read);
    if options != [] {
      OutputStreamSkips(options, Write);
    }
  }
}
