/**
 * File-system locations the bridge uses. They all hang off the user's home directory,
 * which the environment supplies.
 */
module Paths {

  /** `CONFIG_PATH`. */
  function ConfigPath(home: string): string {
    home + "/.stream-deck-ui-md-bridge"
  }

  /** `IMAGE_CACHE_PATH`. */
  function ImageCachePath(home: string): string {
    ConfigPath(home) + "/image_cache"
  }

  /** `MATERIAL_FOUNDRY_IMAGE`: the placeholder shown on bound buttons after a disconnect. */
  function PlaceholderImage(home: string): string {
    ConfigPath(home) + "/MaterialFoundry512x512.png"
  }

  /** The trampoline script a bound button's command runs on key-down. */
  function PipeWriterScript(home: string): string {
    ConfigPath(home) + "/pipe_writer.sh"
  }

  /** `_get_path_from_image_id`: the cache file for an image id. */
  function CachePath(home: string, imageId: string): string {
    ImageCachePath(home) + "/" + imageId
  }

  /** Distinct image ids have distinct cache files, so "the file exists" is a property of the id. */
  lemma CachePathInjective(home: string, a: string, b: string)
    ensures CachePath(home, a) == CachePath(home, b) <==> a == b
  {
    var n := |ImageCachePath(home) + "/"|;
    assert CachePath(home, a)[n..] == a;
    assert CachePath(home, b)[n..] == b;
  }

  /** No cached image is ever the placeholder image. */
  lemma CachePathNotPlaceholder(home: string, imageId: string)
    ensures CachePath(home, imageId) != PlaceholderImage(home)
  {
    var n := |ConfigPath(home)|;
    assert CachePath(home, imageId)[n + 1] == 'i';
    assert PlaceholderImage(home)[n + 1] == 'M';
  }
}
