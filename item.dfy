/** A produced item.  Only its identity matters to the logistics: its mesh,
    transform and parent are presentation. */
class Item {
  constructor ()
  {
  }
}
