/** fatptr.rs: the names of the two-word struct that carries a pointer and
    its metadata (a slice length or a vtable). The struct itself is built by
    `Composite.NewFatPtr`. */
module FatPtr {
  const FAT_PTR_NAME: string := "codegenc_fat_ptr"
  const FAT_PTR_DATA_FIELD: string := "data"
  const FAT_PTR_META_FIELD: string := "meta"
}
