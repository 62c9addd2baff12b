/** The compile-time constants of the file system (config.h, state.h). */
module Config {
  const ROOT_DIR_INUM := 0
  const BLOCK_SIZE := 1024
  const DATA_BLOCKS := 1024
  const INODE_TABLE_SIZE := 50
  const MAX_OPEN_FILES := 20
  const MAX_FILE_NAME := 40
  const MAX_DIRECT_BLOCKS := 10

  /** Block numbers that fit in one index block: BLOCK_SIZE / sizeof(int). */
  const PTRS := 256

  /** BLOCK_SIZE / sizeof(dir_entry_t), where an entry is a 40-byte name and a 4-byte i-number. */
  const DIR_ENTRY_SIZE := 44
  const MAX_DIR_ENTRIES := 23

  /** Largest file that direct blocks and the index block can map. */
  const MAX_FILE_BLOCKS := MAX_DIRECT_BLOCKS + PTRS
  const MAX_FILE_SIZE := MAX_FILE_BLOCKS * BLOCK_SIZE

  /** "No block", "no i-node", and the error result of every operation. */
  const NONE := -1

  const DISK_SIZE := BLOCK_SIZE * DATA_BLOCKS
}
