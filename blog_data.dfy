/** The records the server stores and the clients render: a post and its comments,
    as they travel in the JSON bodies of the REST interface. */
module BlogData {

  datatype Option<T> = None | Some(value: T)

  /** A reply to a post; created once and never changed. */
  datatype Comment = Comment(id: string, content: string, author: string, createdAt: string)

  /** A blog post. `readTime` is display text ("3 min read"); `comments` are in insertion order. */
  datatype Post = Post(
    id: string,
    title: string,
    excerpt: string,
    content: string,
    author: string,
    category: string,
    imageUrl: string,
    createdAt: string,
    readTime: string,
    comments: seq<Comment>)

  /** The outcome of a client's call through the fetch wrappers: the decoded body of a
      successful response, or the error they throw on a non-OK status or a network failure. */
  datatype Fetched<T> = Loaded(value: T) | Failed

  /** JavaScript truthiness of a value that is either absent or a string. */
  predicate Truthy(s: Option<string>) {
    s.Some? && s.value != ""
  }
}
