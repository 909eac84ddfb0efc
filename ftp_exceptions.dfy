/**
 * FTPDirectoryNotEmptyException: the file-system error raised when an FTP command fails because
 * a directory is not empty. It carries the file (which may be unknown), the reply code and the
 * reply text of the FTP reply that caused it (reply codes: section 4.2 of RFC 959). Its reason
 * and its message are both the reply text.
 */
module FTPExceptions {
  import opened Results

  /** Java's int. */
  newtype int32 = x: int | -0x8000_0000 <= x < 0x8000_0000

  /** None stands for a null string. */
  datatype FTPDirectoryNotEmptyException = FTPDirectoryNotEmptyException(
    file: Option<string>,
    replyCode: int32,
    replyString: Option<string>)

  /** `getFile()`, inherited from the file-system exception. */
  function GetFile(e: FTPDirectoryNotEmptyException): Option<string> {
    e.file
  }

  /** `getReplyCode()` */
  function GetReplyCode(e: FTPDirectoryNotEmptyException): int32 {
    e.replyCode
  }

  /** `getReplyString()` */
  function GetReplyString(e: FTPDirectoryNotEmptyException): Option<string> {
    e.replyString
  }

  /** `getReason()`: the reply text. */
  function GetReason(e: FTPDirectoryNotEmptyException): Option<string> {
    GetReplyString(e)
  }

  /** `getMessage()`: the reply text, instead of a message built from the file and the reason. */
  function GetMessage(e: FTPDirectoryNotEmptyException): Option<string> {
    GetReplyString(e)
  }

  /**
   * The constructor. Every accessor gives back what it was given; reason and message are the
   * reply text, whatever the file.
   */
  function NewFTPDirectoryNotEmptyException(file: Option<string>, replyCode: int32, replyString: Option<string>)
    : (e: FTPDirectoryNotEmptyException)
    ensures GetFile(e) == file
    ensures GetReplyCode(e) == replyCode
    ensures GetReplyString(e) == replyString
    ensures GetReason(e) == replyString && GetMessage(e) == replyString
  {
    FTPDirectoryNotEmptyException(file, replyCode, replyString)
  }
}
