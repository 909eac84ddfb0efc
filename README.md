# FTP file system: option validation, directory streams, directory-not-empty errors

A Dafny model of four pieces of the FTP file system for Java NIO.2 (`com.github.robtimus.filesystems.ftp`):

- **Open options.** `OpenOptions.forNewInputStream`, `forNewOutputStream` and `forNewByteChannel` turn the options given to `newInputStream`, `newOutputStream` and `newByteChannel` into a flags record. The record holds read, write, append, create, createNew and deleteOnClose, plus the three FTP transfer settings: file type, file structure and transfer mode. Instead of a record, a builder may report one of two errors. An option the builder does not support gives `UnsupportedOperationException`. An illegal combination gives `IllegalArgumentException`.
- **Copy options.** `CopyOptions.forCopy` and `forMove(sameFileSystem, …)` validate the options of `copy` and `move` in the same way. `toOpenOptions` turns a copy's options into open options, for a copy done through streams.
- **The directory stream.** Opening the stream takes a snapshot of the directory's entries. The stream hands them out through one iterator, filtered by a predicate that may fail. `close()` ends the iteration early.
- **`FTPDirectoryNotEmptyException`.** It records the file, the reply code and the reply text of the FTP reply that caused it. Reply codes are defined in section 4.2 of RFC 959. Its reason and its message are the reply text.

Files:

- `results.dfy`: `Option` and `Result`.
- `transfer_settings.dfy`: the three FTP transfer settings. These are TYPE (section 3.1.1 of RFC 959), STRU (section 3.1.2) and MODE (section 3.4). The file also holds `Scan`, the walk over options that every builder shares, with its characterisation.
- `open_options.dfy`: the three open-option builders.
- `copy_options.dfy`: the copy and move builders and the conversion to open options.
- `directory_stream.dfy`: the `DirectoryStream` and `DirectoryIterator` classes, and the iterations the stream's behaviour is stated by.
- `ftp_exceptions.dfy`: the exception.

The source of the builders and of the directory stream is not available. The model follows the behaviour their unit tests assert: `OpenOptionsTest.java`, `CopyOptionsTest.java` and `FTPFileSystemDirectoryStreamTest.java`. Where the tests leave a choice open, the model takes the natural reading, and the list below says which:

- Options are walked in the order given, and the first failure met is the one reported. That failure is an unsupported option, or a transfer setting whose value differs from one of the same kind given earlier ("set once"). Repeating a setting with the same value is allowed. Combination checks (APPEND with TRUNCATE_EXISTING, READ with WRITE or APPEND) come after the walk.
- `forNewByteChannel` takes a `Set` in Java. Here it is a sequence. `ByteChannelDependsOnSetOnly` proves that the set of its elements alone decides whether it succeeds, and with which flags.
- SPARSE, SYNC, DSYNC and NOFOLLOW_LINKS are accepted and ignored by all three open builders.
- `toOpenOptions` keeps the copy options that are also open options, NOFOLLOW_LINKS and the transfer settings, in their order. The additional options follow them.

## Model

Paths are relative to the repository root. `OpenOptionsTest.java` stands for `src/test/java/com/github/robtimus/filesystems/ftp/OpenOptionsTest.java`, and likewise for the other files; the table gives full paths.

| member | source | states |
|---|---|---|
| TransferSettings.Record | src/test/java/com/github/robtimus/filesystems/ftp/OpenOptionsTest.java:299-309 | Setting a transfer setting fails exactly when a different value of the same kind is already recorded. Otherwise the result holds what was recorded before, plus the new setting. |
| TransferSettings.Scan | src/test/java/com/github/robtimus/filesystems/ftp/OpenOptionsTest.java:285-309 | The walk over options, in order, stops at the first failure. An option it stops at is one of the options given, is no transfer setting, and is not supported by the builder. |
| TransferSettings.ScanCharacterised | src/test/java/com/github/robtimus/filesystems/ftp/OpenOptionsTest.java:260-309 | The walk over options settles exactly when every option is supported or a transfer setting, and no two settings conflict. It then records exactly the settings given. |
| TransferSettings.ScanConflicting | src/test/java/com/github/robtimus/filesystems/ftp/OpenOptionsTest.java:299-309 | The walk stops at a conflict only when two of the transfer settings given conflict. |
| TransferSettings.ScanFailureIsFinal | src/test/java/com/github/robtimus/filesystems/ftp/OpenOptionsTest.java:285-309 | The first failure in iteration order is the one reported, whatever follows it. |
| TransferSettings.SettingsDetermined | src/test/java/com/github/robtimus/filesystems/ftp/OpenOptionsTest.java:260-282 | A settings record is determined by the settings it holds. |
| OpenOptions.ForNewInputStream | src/test/java/com/github/robtimus/filesystems/ftp/OpenOptionsTest.java:38-283 | An input stream reads, and never writes, appends or creates. |
| OpenOptions.InputStreamAccepts | src/test/java/com/github/robtimus/filesystems/ftp/OpenOptionsTest.java:38-283 | An input stream accepts exactly READ, DELETE_ON_CLOSE, the ignored options and non-conflicting transfer settings. deleteOnClose is set exactly when DELETE_ON_CLOSE is given, and the settings are exactly those given. |
| OpenOptions.InputStreamRejectsWriting | src/test/java/com/github/robtimus/filesystems/ftp/OpenOptionsTest.java:285-297 | WRITE, APPEND, TRUNCATE_EXISTING, CREATE or CREATE_NEW makes an input stream fail. Given alone, each is reported as the unsupported option. |
| OpenOptions.ForNewOutputStream | src/test/java/com/github/robtimus/filesystems/ftp/OpenOptionsTest.java:311-676 | An output stream writes and never reads. |
| OpenOptions.OutputStreamAccepts | src/test/java/com/github/robtimus/filesystems/ftp/OpenOptionsTest.java:311-696 | Given options, an output stream accepts exactly the writing options, DELETE_ON_CLOSE, the ignored options and non-conflicting settings, unless APPEND and TRUNCATE_EXISTING are both given. Among options it otherwise accepts, those two together are reported as an illegal combination of all the options. append, create, createNew and deleteOnClose are each set exactly when their option is given. |
| OpenOptions.OutputStreamDefaults | src/test/java/com/github/robtimus/filesystems/ftp/OpenOptionsTest.java:312-322 | With no options, an output stream writes and creates the file, and sets nothing else. |
| OpenOptions.OutputStreamRejectsRead | src/test/java/com/github/robtimus/filesystems/ftp/OpenOptionsTest.java:678-686 | READ makes an output stream fail. Given alone, it is reported as unsupported. |
| OpenOptions.ForNewByteChannel | src/test/java/com/github/robtimus/filesystems/ftp/OpenOptionsTest.java:710-856 | A byte channel either reads or writes, never both, and appending implies writing. |
| OpenOptions.ByteChannelAccepts | src/test/java/com/github/robtimus/filesystems/ftp/OpenOptionsTest.java:710-880 | A byte channel accepts every standard option, NOFOLLOW_LINKS and non-conflicting settings. It rejects READ with WRITE or APPEND, and APPEND with TRUNCATE_EXISTING. Among options it otherwise accepts, each of these is reported as an illegal combination of all the options. It reads exactly when neither WRITE nor APPEND is given, and sets every other flag exactly when its option is given. |
| OpenOptions.ByteChannelRejectsOther | src/test/java/com/github/robtimus/filesystems/ftp/OpenOptionsTest.java:858-867 | An option of another kind makes a byte channel fail. Given alone, it is reported as unsupported. |
| OpenOptions.ByteChannelDependsOnSetOnly | src/test/java/com/github/robtimus/filesystems/ftp/OpenOptionsTest.java:710-896 | Two option lists with the same elements agree on whether a byte channel succeeds, and with which flags: order and repetition do not matter for those. |
| OpenOptions.SameElementsSameSettings | src/test/java/com/github/robtimus/filesystems/ftp/OpenOptionsTest.java:833-856 | Lists with the same elements mention the same settings, and are recognised and consistent alike. |
| OpenOptions.ConflictingSettingsAreIllegal | src/test/java/com/github/robtimus/filesystems/ftp/OpenOptionsTest.java:299-309 | Two different values of one transfer setting, among options a builder otherwise accepts, make each builder report an illegal combination of all the options. |
| OpenOptions.UnsupportedOptionsAreReported | src/test/java/com/github/robtimus/filesystems/ftp/OpenOptionsTest.java:285-297 | Among transfer settings that do not conflict, an option a builder does not support makes it report an unsupported option, one of those given, and never an illegal combination. |
| OpenOptions.GivenSettingIsRecorded | src/test/java/com/github/robtimus/filesystems/ftp/OpenOptionsTest.java:260-282 | A transfer setting that is given, once or repeatedly, is recorded by every builder that succeeds. |
| OpenOptions.AbsentSettingIsUnset | src/test/java/com/github/robtimus/filesystems/ftp/OpenOptionsTest.java:38-50 | Without transfer settings among the options, every builder that succeeds leaves all three settings unset. |
| OpenOptions.IgnoredOptionsChangeNothing | src/test/java/com/github/robtimus/filesystems/ftp/OpenOptionsTest.java:84-258 | Adding SPARSE, SYNC, DSYNC or NOFOLLOW_LINKS changes neither an input stream's nor a byte channel's success or flags. The same holds for an output stream that already had options; with none, it would lose the default create. |
| OpenOptions.NeutralReadAndWrite | src/test/java/com/github/robtimus/filesystems/ftp/OpenOptionsTest.java:51-83 | Adding READ to an input stream's options, or WRITE to an output stream's non-empty options, changes nothing. |
| CopyOptions.ForCopy | src/test/java/com/github/robtimus/filesystems/ftp/CopyOptionsTest.java:45-84 | A successful copy keeps the options it was given, for the conversion to open options. |
| CopyOptions.ForMove | src/test/java/com/github/robtimus/filesystems/ftp/CopyOptionsTest.java:109-196 | A successful move keeps the options it was given. |
| CopyOptions.CopyAccepts | src/test/java/com/github/robtimus/filesystems/ftp/CopyOptionsTest.java:45-84 | A copy accepts exactly REPLACE_EXISTING, NOFOLLOW_LINKS and non-conflicting transfer settings. It replaces exactly when REPLACE_EXISTING is given, and records the settings given. |
| CopyOptions.MoveAccepts | src/test/java/com/github/robtimus/filesystems/ftp/CopyOptionsTest.java:109-196 | A move accepts the same options as a copy, plus ATOMIC_MOVE within one file system. It replaces exactly when REPLACE_EXISTING is given, and records the settings given. |
| CopyOptions.CopyAttributesAndAtomicMoveRejected | src/test/java/com/github/robtimus/filesystems/ftp/CopyOptionsTest.java:86-95 | COPY_ATTRIBUTES makes a copy and a move fail. ATOMIC_MOVE makes a copy fail, and a move between file systems. Given alone, each is reported as the unsupported option. |
| CopyOptions.AtomicMoveWithinFileSystem | src/test/java/com/github/robtimus/filesystems/ftp/CopyOptionsTest.java:109-133 | Within one file system, adding ATOMIC_MOVE changes neither a move's success nor its flags. |
| CopyOptions.ConflictingSettingsAreIllegal | src/test/java/com/github/robtimus/filesystems/ftp/CopyOptionsTest.java:97-107 | Two different values of one transfer setting, among options the builder otherwise accepts, make a copy and a move report an illegal combination of all the options. |
| CopyOptions.UnsupportedCopyOptionsAreReported | src/test/java/com/github/robtimus/filesystems/ftp/CopyOptionsTest.java:86-95 | Among transfer settings that do not conflict, an option a copy or a move does not support is reported as unsupported, one of those given, and never as an illegal combination. |
| CopyOptions.OpenOptionsOf | src/test/java/com/github/robtimus/filesystems/ftp/CopyOptionsTest.java:38-43 | The conversion keeps only NOFOLLOW_LINKS and transfer settings. It contains NOFOLLOW_LINKS, or a given transfer setting, exactly when the copy options do. |
| CopyOptions.OpenOptionsOfAppend | src/test/java/com/github/robtimus/filesystems/ftp/CopyOptionsTest.java:38-43 | The conversion keeps order: converting a concatenation concatenates the conversions. |
| CopyOptions.OpenOptionsOfMentions | src/test/java/com/github/robtimus/filesystems/ftp/CopyOptionsTest.java:38-43 | The conversion carries exactly the copy's transfer settings. |
| CopyOptions.ToOpenOptions | src/test/java/com/github/robtimus/filesystems/ftp/CopyOptionsTest.java:38-43 | The additional open options come last, unchanged. Everything before them is NOFOLLOW_LINKS or a transfer setting. |
| CopyOptions.ToOpenOptionsExample | src/test/java/com/github/robtimus/filesystems/ftp/CopyOptionsTest.java:38-43 | REPLACE_EXISTING and NOFOLLOW_LINKS, converted with READ, give NOFOLLOW_LINKS followed by READ. |
| CopyOptions.ConversionMentions | src/test/java/com/github/robtimus/filesystems/ftp/CopyOptionsTest.java:38-43 | Converted options plus non-setting additional ones carry exactly the copy's transfer settings. |
| CopyOptions.ConversionRecognised | src/test/java/com/github/robtimus/filesystems/ftp/CopyOptionsTest.java:38-43 | A builder that supports NOFOLLOW_LINKS and the additional options accepts every converted option. |
| CopyOptions.ConversionKeepsOthers | src/test/java/com/github/robtimus/filesystems/ftp/CopyOptionsTest.java:38-43 | An option other than NOFOLLOW_LINKS or a transfer setting is among the converted options exactly when it is among the additional ones. |
| CopyOptions.CopySettingsReachInputStream | src/test/java/com/github/robtimus/filesystems/ftp/CopyOptionsTest.java:38-43 | Opening the source with a valid copy's converted options, plus options an input stream supports, succeeds with the copy's transfer settings. |
| CopyOptions.CopySettingsReachOutputStream | src/test/java/com/github/robtimus/filesystems/ftp/CopyOptionsTest.java:38-43 | The same holds for the target opened for output, when APPEND and TRUNCATE_EXISTING are not both added. |
| DirectoryStreams.Seek | src/test/java/com/github/robtimus/filesystems/ftp/FTPFileSystemDirectoryStreamTest.java:82-102 | The search from the cursor stops at the first entry the filter accepts or fails on, and every entry before it is skipped. If it finds none, every remaining entry is skipped. |
| DirectoryStreams.Listing | src/test/java/com/github/robtimus/filesystems/ftp/FTPFileSystemDirectoryStreamTest.java:63-102 | A complete iteration yields no more names than there are entries. Its only error is a directory-iterator error for an entry the filter fails on. |
| DirectoryStreams.SeekListing | src/test/java/com/github/robtimus/filesystems/ftp/FTPFileSystemDirectoryStreamTest.java:63-102 | One search step is the start of the listing: the name found, then the rest; or the error; or nothing. |
| DirectoryStreams.ListingSucceeds | src/test/java/com/github/robtimus/filesystems/ftp/FTPFileSystemDirectoryStreamTest.java:240-249 | The iteration fails exactly when the filter fails on some entry. |
| DirectoryStreams.ListingFailsAtFirstFailure | src/test/java/com/github/robtimus/filesystems/ftp/FTPFileSystemDirectoryStreamTest.java:240-249 | The error names the first entry the filter fails on. |
| DirectoryStreams.ListingCounts | src/test/java/com/github/robtimus/filesystems/ftp/FTPFileSystemDirectoryStreamTest.java:82-102 | A successful iteration yields each accepted name exactly as often as it occurs among the entries, and no rejected name. |
| DirectoryStreams.ListingMembers | src/test/java/com/github/robtimus/filesystems/ftp/FTPFileSystemDirectoryStreamTest.java:82-102 | A name is yielded exactly when it is an entry the filter accepts. |
| DirectoryStreams.AcceptAllListsEverything | src/test/java/com/github/robtimus/filesystems/ftp/FTPFileSystemDirectoryStreamTest.java:63-80 | With a filter that accepts everything, the iteration yields the whole snapshot. |
| DirectoryStreams.DirectoryStream.constructor | src/test/java/com/github/robtimus/filesystems/ftp/FTPFileSystemDirectoryStreamTest.java:217-238 | A new stream holds the snapshot and the filter, is open, has returned no iterator, and has its cursor at the start. |
| DirectoryStreams.DirectoryStream.Iterator | src/test/java/com/github/robtimus/filesystems/ftp/FTPFileSystemDirectoryStreamTest.java:144-162 | After close, `iterator()` fails as closed. After an iterator was returned, it fails as already returned. Otherwise it returns a fresh iterator that has announced nothing. |
| DirectoryStreams.DirectoryStream.Close | src/test/java/com/github/robtimus/filesystems/ftp/FTPFileSystemDirectoryStreamTest.java:104-150 | After close, the stream is closed, and nothing else changes. |
| DirectoryStreams.DirectoryStream.GetNext | src/test/java/com/github/robtimus/filesystems/ftp/FTPFileSystemDirectoryStreamTest.java:82-102 | The loop over the snapshot returns the search result from the cursor, and leaves the cursor just past the entry it stopped at. |
| DirectoryStreams.DirectoryIterator.HasNext | src/test/java/com/github/robtimus/filesystems/ftp/FTPFileSystemDirectoryStreamTest.java:104-142 | `hasNext` never changes what is left to deliver. It is true exactly when a name is announced, and stays true until `next`. When false, the iteration has ended. A failing filter is reported as the directory-iterator error that was left. |
| DirectoryStreams.DirectoryIterator.Next | src/test/java/com/github/robtimus/filesystems/ftp/FTPFileSystemDirectoryStreamTest.java:104-142 | `next` delivers the first name left, which is the announced one if there is one. It fails with NoSuchElement when nothing is left, or with the error that was left. |
| DirectoryStreams.Directory.NewDirectoryStream | src/test/java/com/github/robtimus/filesystems/ftp/FTPFileSystemDirectoryStreamTest.java:217-238 | A new stream over a directory holds a snapshot of its current entries. |
| DirectoryStreams.Drain | src/test/java/com/github/robtimus/filesystems/ftp/FTPFileSystemDirectoryStreamTest.java:74-78 | Calling `hasNext`/`next` until `hasNext` is false, while the stream stays open, yields exactly what was left, or its error. |
| DirectoryStreams.ListAll | src/test/java/com/github/robtimus/filesystems/ftp/FTPFileSystemDirectoryStreamTest.java:63-102 | Iterating over a new stream yields the listing of the snapshot. |
| DirectoryStreams.ListWhileDeleting | src/test/java/com/github/robtimus/filesystems/ftp/FTPFileSystemDirectoryStreamTest.java:164-238 | Deleting the directory, or its children, before taking the iterator and during the iteration leaves the yield unchanged: the listing of the entries the directory had when the stream was opened. |
| DirectoryStreams.CloseWhileIterating | src/test/java/com/github/robtimus/filesystems/ftp/FTPFileSystemDirectoryStreamTest.java:104-142 | Closing the stream once `hasNext` has announced the k-th name yields exactly the first k names. Never closing yields the whole listing. |
| FTPExceptions.GetFile | src/main/java/com/github/robtimus/filesystems/ftp/FTPDirectoryNotEmptyException.java:41-42 | `getFile()`: the file the exception was created with, or none if unknown. |
| FTPExceptions.GetReplyCode | src/main/java/com/github/robtimus/filesystems/ftp/FTPDirectoryNotEmptyException.java:47-50 | `getReplyCode()`: the reply code the exception was created with. |
| FTPExceptions.GetReplyString | src/main/java/com/github/robtimus/filesystems/ftp/FTPDirectoryNotEmptyException.java:52-55 | `getReplyString()`: the reply text the exception was created with. |
| FTPExceptions.GetReason | src/main/java/com/github/robtimus/filesystems/ftp/FTPDirectoryNotEmptyException.java:57-60 | `getReason()`: the reply text. |
| FTPExceptions.GetMessage | src/main/java/com/github/robtimus/filesystems/ftp/FTPDirectoryNotEmptyException.java:62-65 | `getMessage()`: the reply text, not a message built from the file and the reason. |
| FTPExceptions.NewFTPDirectoryNotEmptyException | src/main/java/com/github/robtimus/filesystems/ftp/FTPDirectoryNotEmptyException.java:41-65 | The file, reply code and reply text are returned unchanged by their getters. The reason and the message are both the reply text, whatever the file. |

## Left out

- The connection pool, the `FileSystemExceptionFactory` that turns FTP replies into exceptions and the test's `ExceptionFactoryWrapper` around it, logging, and the test server and file-system harness are not part of this model. They are I/O, concurrency and delegation to code that is not part of this model.
- OpenOptions.ByteChannelDependsOnSetOnly: covers success and the flags only. When a byte channel fails, the error reported depends on the order the options are walked in. For example, an unknown option before two conflicting file types is reported as unsupported, and after them the conflict is reported as an illegal combination. In Java that order is the iteration order of the `Set`.
- Exact error-message text is left out. Errors carry their kind and the offending option, or all the options for an illegal combination.
- Only the transfer-setting values the tests use are modelled: ascii and binary file types, FILE and PAGE structures, STREAM and BLOCK modes. The format argument of a file type is left out too.
- Path handling is left out. The filter is an abstract function from an entry name to accept, skip or fail; regular-expression filters are not modelled.
- Special entries such as `.` and `..` in an FTP listing, and how the snapshot is fetched, are left out. The snapshot is a given sequence of names. A missing directory (no such file) is not modelled.
- The model iterates in snapshot order. The tests only require the names in any order.
- DirectoryStreams.DirectoryIterator.HasNext: after a filter failure, the model leaves the cursor past the failing entry with nothing announced. It does not promise what later calls return, because the tests do not show it.
- DirectoryStreams.CloseWhileIterating: states the yield only when the iteration succeeds, or when the stream is never closed. With a failing filter and an early close it promises nothing.
- CopyOptions.CopySettingsReachOutputStream: covers only additional options an output stream supports, without APPEND together with TRUNCATE_EXISTING.
- Java's `int` reply code is a 32-bit type here. Strings are sequences of characters, and null is `None`.
