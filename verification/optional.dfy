/** The nullable values of the site's scripts (`number | null`, an absent
    `contact`, an unset touch start) as an explicit option type. */
module Optional {

  datatype Option<+T> = None | Some(value: T)
}
