/**
 * The protobuf ("full") Tachiyomi backup, restricted to the fields the migrators read or write.
 * Every other field of a record is carried along unchanged by Kotlin's `copy()` and is not modelled.
 */
module FullBackup {
  import opened KotlinText

  datatype BackupChapter = BackupChapter(url: string, name: string)

  datatype BackupHistory = BackupHistory(url: string, lastRead: Int64)

  /** A history entry stored under the legacy field number. */
  datatype BrokenBackupHistory = BrokenBackupHistory(url: string, lastRead: Int64)

  datatype BackupManga = BackupManga(
    source: Int64,
    url: string,
    title: string,
    favorite: bool,
    chapters: seq<BackupChapter>,
    history: seq<BackupHistory>,
    brokenHistory: seq<BrokenBackupHistory>)

  datatype BackupSource = BackupSource(name: string, sourceId: Int64)

  /** A source entry stored under the legacy field number. */
  datatype BrokenBackupSource = BrokenBackupSource(name: string, sourceId: Int64)

  datatype Backup = Backup(
    backupManga: seq<BackupManga>,
    backupSources: seq<BackupSource>,
    backupBrokenSources: seq<BrokenBackupSource>)
}
